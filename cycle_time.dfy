/**
 * The cycle-time value object: an immutable record of a story, an optional
 * start date, an optional end date and a validity flag, with the elapsed time
 * derived from the two dates.
 *
 * A `java.util.Date` is its millisecond count since the epoch, a signed 64-bit
 * `long`; a null date is `None`.
 */
module CycleTime {
  import opened Optional

  const MinLong: int := -0x8000_0000_0000_0000
  const MaxLong: int := 0x7FFF_FFFF_FFFF_FFFF
  const TwoTo64: int := 0x1_0000_0000_0000_0000

  /** Java's 64-bit `long` */
  type Long = x: int | MinLong <= x <= MaxLong

  /** Milliseconds in one day, the divisor of `TimeUnit.MILLISECONDS.toDays` */
  const MillisPerDay: int := 86_400_000

  /** Two's-complement wrap-around of a mathematical integer into a `long` */
  function WrapLong(x: int): (r: Long)
    ensures (x - r) % TwoTo64 == 0
    ensures MinLong <= x <= MaxLong ==> r == x
  {
    (x - MinLong) % TwoTo64 + MinLong
  }

  /** Euclidean division of a non-negative number: the whole multiples of `b` it contains */
  lemma DivBounds(a: int, b: int)
    requires a >= 0 && b > 0
    ensures 0 <= a / b && (a / b) * b <= a < (a / b + 1) * b
  {
    var q, r := a / b, a % b;
    assert a == q * b + r && 0 <= r < b;
    assert (q + 1) * b == q * b + b;
  }

  /** Java's integer division `a / b` for `b > 0`: rounds toward zero */
  function TruncDiv(a: int, b: int): (q: int)
    requires b > 0
    ensures a >= 0 ==> 0 <= q && q * b <= a < (q + 1) * b
    ensures a < 0 ==> q <= 0 && -q * b <= -a < (-q + 1) * b
  {
    if a >= 0 then DivBounds(a, b); a / b
    else DivBounds(-a, b); -((-a) / b)
  }

  /** A `CycleTimeEntry<T>`: the four final fields set by the constructor */
  datatype Entry<T> = Entry(story: T, startDate: Option<Long>, endDate: Option<Long>, valid: bool)
  {
    /** `getTimeTaken()`: 0 when a date is missing, else `end - start` as a `long` */
    function TimeTaken(): (r: Long)
      ensures startDate.None? || endDate.None? ==> r == 0
      ensures startDate.Some? && endDate.Some? ==> (endDate.value - startDate.value - r) % TwoTo64 == 0
    {
      if startDate.None? || endDate.None? then 0
      else WrapLong(endDate.value - startDate.value)
    }

    /** `getDaysTaken()`: the elapsed milliseconds in whole days, truncated */
    function DaysTaken(): (r: Long)
      ensures var t: int, d: int := TimeTaken(), r;
        t >= 0 ==> 0 <= d && d * MillisPerDay <= t < (d + 1) * MillisPerDay
      ensures var t: int, d: int := TimeTaken(), r;
        t < 0 ==> d <= 0 && -d * MillisPerDay <= -t < (-d + 1) * MillisPerDay
    {
      TruncDiv(TimeTaken(), MillisPerDay)
    }
  }

  /** The three-argument constructor, which delegates with `valid = true` */
  function NewEntry<T>(story: T, start: Option<Long>, end: Option<Long>): (e: Entry<T>)
    ensures e.valid
    ensures e.story == story && e.startDate == start && e.endDate == end
  {
    Entry(story, start, end, true)
  }

  /** A missing date yields no elapsed time and no days, whatever the flag says. */
  lemma MissingDateTakesNoTime<T>(e: Entry<T>)
    requires e.startDate.None? || e.endDate.None?
    ensures e.TimeTaken() == 0 && e.DaysTaken() == 0
  {
  }

  /**
   * With both dates present the elapsed time is exactly `end - start` whenever
   * that difference fits in a `long`: it is negative when the end precedes the
   * start, and nothing clamps it.
   */
  lemma TimeTakenIsDifference<T>(e: Entry<T>)
    requires e.startDate.Some? && e.endDate.Some?
    requires MinLong <= e.endDate.value - e.startDate.value <= MaxLong
    ensures e.TimeTaken() == e.endDate.value - e.startDate.value
    ensures e.TimeTaken() < 0 <==> e.endDate.value < e.startDate.value
  {
  }

  /** Dates at or after the epoch never overflow the subtraction. */
  lemma PostEpochTimeTaken<T>(e: Entry<T>)
    requires e.startDate.Some? && e.endDate.Some?
    requires e.startDate.value >= 0 && e.endDate.value >= 0
    ensures e.TimeTaken() == e.endDate.value - e.startDate.value
  {
    TimeTakenIsDifference(e);
  }

  /**
   * Days taken is the elapsed time divided by a day, rounded toward zero: for a
   * non-negative time the whole days it contains; for a negative time the
   * negated whole days of its magnitude.
   */
  lemma DaysTakenBounds<T>(e: Entry<T>)
    ensures var t: int, d: int := e.TimeTaken(), e.DaysTaken();
      (t >= 0 ==> 0 <= d && d * MillisPerDay <= t < (d + 1) * MillisPerDay) &&
      (t < 0 ==> d <= 0 && d == -((-t) / MillisPerDay))
  {
  }

  /** The flag is whatever the constructor received: it ignores the dates. */
  lemma ValidityIgnoresDates<T>(story: T, start: Long, end: Long)
    ensures !Entry(story, Some(start), Some(end), false).valid
    ensures NewEntry(story, None, None).valid
    ensures NewEntry(story, None, None).DaysTaken() == 0
  {
  }
}
