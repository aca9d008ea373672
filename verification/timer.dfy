/**
 * The monotonic timer: readings of a monotonic clock kept as durations since an
 * arbitrary origin, a timer that is started once and stopped once, and the
 * conversion of the clock's `timespec` into a duration. The clock itself is
 * not modelled: every operation that reads it takes the reading as `now`.
 */
module Timer {
  import opened Bytes
  import opened Wrappers

  const NANOS_PER_SEC: int := 1_000_000_000
  const TWO_32: int := 0x1_0000_0000

  /** The nanoseconds part of a duration, always below one second. */
  type SubsecNanos = n: int | 0 <= n < NANOS_PER_SEC

  /** A `core::time::Duration`: whole seconds and the nanoseconds below one second. */
  datatype Duration = Duration(secs: uint64, nanos: SubsecNanos)

  /** The length of a duration in nanoseconds. */
  function Nanos(d: Duration): nat {
    d.secs * NANOS_PER_SEC + d.nanos
  }

  /**
   * `Duration::new`: nanoseconds of a second or more carry into the seconds. The
   * source panics when the carry overflows the seconds, which callers rule out.
   */
  function NewDuration(secs: uint64, nanos: uint32): (r: Duration)
    requires secs + nanos / NANOS_PER_SEC < TWO_64
    ensures Nanos(r) == secs * NANOS_PER_SEC + nanos
  {
    Duration(secs + nanos / NANOS_PER_SEC, nanos % NANOS_PER_SEC)
  }

  /** The duration `n` nanoseconds long. */
  function FromNanos(n: nat): (r: Duration)
    requires n < TWO_64 * NANOS_PER_SEC
    ensures Nanos(r) == n
  {
    Duration(n / NANOS_PER_SEC, n % NANOS_PER_SEC)
  }

  /** A duration is determined by its length. */
  lemma NanosInjective(a: Duration, b: Duration)
    requires Nanos(a) == Nanos(b)
    ensures a == b
  {
    assert a.secs == Nanos(a) / NANOS_PER_SEC && a.nanos == Nanos(a) % NANOS_PER_SEC;
    assert b.secs == Nanos(b) / NANOS_PER_SEC && b.nanos == Nanos(b) % NANOS_PER_SEC;
  }

  /**
   * `parse_timespec`: a negative seconds field reads as 0; a negative nanoseconds
   * field reads as 0; a nanoseconds field too wide for 32 bits reads as 999999999
   * and takes one second off, saturating at 0; any other nanoseconds field is
   * passed to `Duration::new`, which carries whole seconds.
   */
  function ParseTimespec(tvSec: int64, tvNsec: int64): (r: Duration)
    ensures 0 <= tvNsec < TWO_32 ==>
      Nanos(r) == (if tvSec < 0 then 0 else tvSec) * NANOS_PER_SEC + tvNsec
    ensures tvNsec < 0 ==> r == Duration(if tvSec < 0 then 0 else tvSec as uint64, 0)
    ensures tvNsec >= TWO_32 ==> r == Duration(if tvSec <= 0 then 0 else (tvSec - 1) as uint64, 999_999_999)
  {
    var s: uint64 := if tvSec < 0 then 0 else tvSec as uint64;
    if 0 <= tvNsec < TWO_32 then NewDuration(s, tvNsec as uint32)
    else if tvNsec < 0 then NewDuration(s, 0)
    else NewDuration(if s == 0 then 0 else s - 1, 999_999_999)
  }

  /** A well-formed timespec (seconds not negative, nanoseconds below one second) converts exactly. */
  lemma ParseExact(tvSec: int64, tvNsec: int64)
    requires tvSec >= 0 && 0 <= tvNsec < NANOS_PER_SEC
    ensures ParseTimespec(tvSec, tvNsec) == Duration(tvSec as uint64, tvNsec as SubsecNanos)
  {
    NanosInjective(ParseTimespec(tvSec, tvNsec), Duration(tvSec as uint64, tvNsec as SubsecNanos));
  }

  /** Later well-formed readings never convert to shorter durations. */
  lemma ParseMonotone(s1: int64, n1: int64, s2: int64, n2: int64)
    requires s1 >= 0 && 0 <= n1 < NANOS_PER_SEC && s2 >= 0 && 0 <= n2 < NANOS_PER_SEC
    requires s1 < s2 || (s1 == s2 && n1 <= n2)
    ensures Nanos(ParseTimespec(s1, n1)) <= Nanos(ParseTimespec(s2, n2))
  {
    if s1 < s2 {
      assert s1 * NANOS_PER_SEC + n1 < (s1 + 1) * NANOS_PER_SEC <= s2 * NANOS_PER_SEC;
    }
  }

  /** The three corrections the source's tests pin down. */
  lemma ParseExamples()
    ensures ParseTimespec(-1, 5_000_000) == Duration(0, 5_000_000)
    ensures ParseTimespec(3, I64_MAX) == Duration(2, 999_999_999)
    ensures ParseTimespec(3, -1) == Duration(3, 0)
  {
    NanosInjective(ParseTimespec(-1, 5_000_000), Duration(0, 5_000_000));
  }

  /** A timer: when it was started and when it was stopped, if it was. */
  datatype Timer = Timer(start: Option<Duration>, stop: Option<Duration>)

  /** `Timer::new`: neither started nor stopped. */
  function New(): (r: Timer)
    ensures r.start.None? && r.stop.None?
  {
    Timer(None, None)
  }

  /** `Timer::start`: records `now` and reports true, unless the timer was already started. */
  function Start(t: Timer, now: Duration): (r: (Timer, bool))
    ensures r.1 <==> t.start.None?
    ensures r.1 ==> r.0 == t.(start := Some(now))
    ensures !r.1 ==> r.0 == t
  {
    if t.start.Some? then (t, false) else (t.(start := Some(now)), true)
  }

  /** A timer is stopped only after it was started, and never before it started. */
  predicate Ordered(t: Timer) {
    (t.stop.Some? ==> t.start.Some?) &&
    (t.start.Some? && t.stop.Some? ==> Nanos(t.start.value) <= Nanos(t.stop.value))
  }

  /**
   * `Timer::duration`: the time from start to stop, once the timer has both.
   * Subtracting a later start from an earlier stop panics in the source, so
   * callers must not have one.
   */
  function Elapsed(t: Timer): (r: Option<Duration>)
    requires t.start.Some? && t.stop.Some? ==> Nanos(t.start.value) <= Nanos(t.stop.value)
    ensures r.Some? <==> t.start.Some? && t.stop.Some?
    ensures r.Some? ==> Nanos(t.start.value) + Nanos(r.value) == Nanos(t.stop.value)
  {
    if t.start.Some? && t.stop.Some? then
      assert Nanos(t.stop.value) - Nanos(t.start.value) < TWO_64 * NANOS_PER_SEC;
      Some(FromNanos(Nanos(t.stop.value) - Nanos(t.start.value)))
    else None
  }

  /**
   * `Timer::stop`: records `now` and returns the elapsed time, unless the timer
   * was never started or already stopped. `now` comes from a monotonic clock, so
   * it is never earlier than the start.
   */
  function Stop(t: Timer, now: Duration): (r: (Timer, Option<Duration>))
    requires Ordered(t)
    requires t.start.Some? ==> Nanos(t.start.value) <= Nanos(now)
    ensures r.1.Some? <==> t.start.Some? && t.stop.None?
    ensures r.1.None? ==> r.0 == t
    ensures r.1.Some? ==> r.0 == t.(stop := Some(now)) && Nanos(t.start.value) + Nanos(r.1.value) == Nanos(now)
    ensures Ordered(r.0)
  {
    if t.start.None? || t.stop.Some? then (t, None)
    else
      var stopped := t.(stop := Some(now));
      (stopped, Elapsed(stopped))
  }

  /** `Timer::is_running`: started and not yet stopped. */
  predicate IsRunning(t: Timer)
    ensures Ordered(t) && t.start.Some? ==> (IsRunning(t) <==> Elapsed(t).None?)
  {
    t.start.Some? && t.stop.None?
  }

  /** `Timer::reset`: back to a new timer. */
  function Reset(t: Timer): (r: Timer)
    ensures r == New()
  {
    Timer(None, None)
  }

  /**
   * The life of a timer: a second start fails and keeps the first reading; a
   * stop returns what `duration` reports afterwards; a second stop returns
   * nothing; it runs exactly between the two.
   */
  lemma Lifecycle(t0: Duration, t1: Duration, t2: Duration, t3: Duration)
    requires Nanos(t0) <= Nanos(t1) <= Nanos(t2) <= Nanos(t3)
    ensures !IsRunning(New()) && Elapsed(New()).None?
    ensures var (started, ok) := Start(New(), t0);
      ok && IsRunning(started) && Elapsed(started).None? &&
      Start(started, t1) == (started, false) &&
      var (stopped, d) := Stop(started, t2);
      d.Some? && Nanos(d.value) == Nanos(t2) - Nanos(t0) && d == Elapsed(stopped) &&
      !IsRunning(stopped) && Stop(stopped, t3) == (stopped, None) &&
      Reset(stopped) == New() && !IsRunning(Reset(started))
  {
    var started := Start(New(), t0).0;
    var stopped := Stop(started, t2).0;
    assert stopped == Timer(Some(t0), Some(t2));
  }

  /** Starting keeps a timer ordered as long as it was; stopping does by its contract; a reset timer is. */
  lemma OrderedPreserved(t: Timer, now: Duration)
    requires Ordered(t)
    ensures Ordered(Start(t, now).0)
    ensures Ordered(Reset(t))
  {
  }
}
