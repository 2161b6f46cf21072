/** Absolute times as the timer code keeps them: 32-bit seconds and nanoseconds. */
module Deadline {
  import opened Ranking

  const NANOS := 1_000_000_000
  const TWO31 := 0x8000_0000

  datatype Timespec = Timespec(sec: int, nsec: int)

  predicate FitsInt32(x: int) {
    -TWO31 <= x < TWO31
  }

  /** The value a 32-bit signed variable keeps of x. */
  function Int32(x: int): (r: int)
    ensures FitsInt32(r)
    ensures FitsInt32(x) ==> r == x
  {
    (x + TWO31) % (2 * TWO31) - TWO31
  }

  predicate Normalised(t: Timespec) {
    0 <= t.nsec < NANOS
  }

  /** The time as one number of nanoseconds. */
  function Nanos(t: Timespec): int {
    t.sec * NANOS + t.nsec
  }

  /** A 32-bit unsigned delay. */
  type Millis = ms: int | 0 <= ms < 0x1_0000_0000

  /** The deadline that LocTimer::start computes from the current time. */
  function FutureTime(now: Timespec, ms: Millis): Timespec {
    var sec := Int32(now.sec + ms / 1000);
    var nsec := Int32(now.nsec + (ms % 1000) * 1_000_000);
    if nsec >= NANOS
    then Timespec(Int32(sec + nsec / NANOS), nsec % NANOS)
    else Timespec(sec, nsec)
  }

  /** Whole seconds that the delay adds, with the carry out of the nanoseconds. */
  function AddedSeconds(now: Timespec, ms: Millis): nat {
    ms / 1000 + if now.nsec + (ms % 1000) * 1_000_000 >= NANOS then 1 else 0
  }

  /**
   The deadline is always normalised, its nanosecond sum stays below 2^31, and it is
   exactly "now + delay" if and only if the seconds do not overflow.
   */
  lemma FutureTimeExact(now: Timespec, ms: Millis)
    requires Normalised(now) && FitsInt32(now.sec)
    ensures now.nsec + (ms % 1000) * 1_000_000 < TWO31
    ensures Normalised(FutureTime(now, ms)) && FitsInt32(FutureTime(now, ms).sec)
    ensures Nanos(FutureTime(now, ms)) == Nanos(now) + ms * 1_000_000
            <==> FitsInt32(now.sec + AddedSeconds(now, ms))
  {
    var sum := now.nsec + (ms % 1000) * 1_000_000;
    var r := FutureTime(now, ms);
    assert ms * 1_000_000 == (ms / 1000) * NANOS + (ms % 1000) * 1_000_000;
    assert r.nsec == if sum >= NANOS then sum - NANOS else sum;
    WrapOfSum(now.sec, ms / 1000, if sum >= NANOS then 1 else 0);
    assert r.sec == Int32(now.sec + AddedSeconds(now, ms));
    var exact := now.sec + AddedSeconds(now, ms);
    assert Nanos(now) + ms * 1_000_000 == exact * NANOS + r.nsec;
  }

  lemma WrapOfSum(a: int, b: int, c: int)
    ensures Int32(Int32(a + b) + c) == Int32(a + b + c)
  {
  }

  /** LocTimerDelegate::ranks: positive if a is due before b. */
  function Ranks(a: Timespec, b: Timespec): int {
    var rank := Int32(b.sec - a.sec);
    if rank == 0 then Int32(b.nsec - a.nsec) else rank
  }

  /** The ranking says "due earlier" exactly for pairs whose seconds differ by a 32-bit number. */
  lemma RanksExact(a: Timespec, b: Timespec)
    requires Normalised(a) && Normalised(b) && FitsInt32(a.sec) && FitsInt32(b.sec)
    ensures (Ranks(a, b) > 0 <==> Nanos(a) < Nanos(b)) <==> FitsInt32(b.sec - a.sec)
  {
    var d := b.sec - a.sec;
    if d > 0 {
      assert d * NANOS >= NANOS;
    } else if d < 0 {
      assert d * NANOS <= -NANOS;
    }
    assert Nanos(b) - Nanos(a) == d * NANOS + b.nsec - a.nsec;
  }

  /** Not zero: an fd set to zero is disarmed. */
  predicate IsInstant(t: Timespec) {
    Normalised(t) && 0 <= t.sec < TWO31 && t != Timespec(0, 0)
  }

  /** Times the clock and the deadlines take: time since boot is positive. */
  type Instant = t: Timespec | IsInstant(t) witness Timespec(1, 0)

  /** Times of the clock early enough for any 32-bit delay to be added (68 years less 50 days of uptime). */
  type Uptime = t: Timespec | IsInstant(t) && t.sec < TWO31 - 4_294_968 witness Timespec(1, 0)

  /** The clock when the service comes up. */
  const START := Timespec(1, 0)

  lemma FutureIsInstant(now: Uptime, ms: Millis)
    ensures IsInstant(FutureTime(now, ms))
    ensures Nanos(FutureTime(now, ms)) == Nanos(now) + ms * 1_000_000
  {
    FutureTimeExact(now, ms);
  }

  /** An entry of the timer heap: which delegate, and when it is due. */
  datatype Timer = Timer(id: nat, at: Instant)

  function TimerRank(a: Timer, b: Timer): int {
    Ranks(a.at, b.at)
  }

  predicate Earlier(a: Timer, b: Timer) {
    Nanos(a.at) < Nanos(b.at)
  }

  /** On instants the ranking is strict order on time, so it is the preorder that the heap needs. */
  lemma TimerRankIsTimeOrder(a: Timer, b: Timer)
    ensures OutRanks(TimerRank, a, b) <==> Earlier(a, b)
  {
    RanksExact(a.at, b.at);
  }

  lemma TimerRankIsWeakOrder()
    ensures WeakOrder(TimerRank)
  {
    forall a, b ensures OutRanks(TimerRank, a, b) <==> Earlier(a, b) {
      TimerRankIsTimeOrder(a, b);
    }
  }
}
