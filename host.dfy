/**
 * Value types of the .NET runtime and of the trading host that the strategy
 * core reads: calendar dates, date-times, times of day, raw trading slices
 * and futures. Times of day and spans are whole seconds.
 */
module Host {
  import opened Wrappers

  const SecondsPerMinute := 60
  const SecondsPerHour := 3600
  const SecondsPerDay := 86400

  /** The time-of-day part of a date-time: seconds since midnight. */
  type SecondOfDay = s: int | 0 <= s < 86400

  /** A calendar date as a (year, month, day) triple; calendar arithmetic is not modelled. */
  datatype Date = Date(year: int, month: int, day: int)

  datatype DateTime = DateTime(date: Date, time: SecondOfDay)

  /** The earliest date-time the runtime can represent, the default of a date-time field. */
  const MinDateTime := DateTime(Date(1, 1, 1), 0)

  /** Chronological order of date-times: by year, month, day, then time of day. */
  predicate Before(a: DateTime, b: DateTime)
  {
    if a.date.year != b.date.year then a.date.year < b.date.year
    else if a.date.month != b.date.month then a.date.month < b.date.month
    else if a.date.day != b.date.day then a.date.day < b.date.day
    else a.time < b.time
  }

  /** Before is a strict total order on date-times. */
  lemma BeforeIsStrictTotalOrder(a: DateTime, b: DateTime, c: DateTime)
    ensures !Before(a, a)
    ensures Before(a, b) ==> !Before(b, a)
    ensures a != b ==> Before(a, b) || Before(b, a)
    ensures Before(a, b) && Before(b, c) ==> Before(a, c)
  {
  }

  /**
   * Whether the runtime accepts a span's hour, minute and second components
   * as a time of day. They are the span's own, truncated toward zero, so they
   * are negative for a negative span unless it is a whole number of days, in
   * which case they are all zero.
   */
  predicate HasClock(span: int)
  {
    span >= 0 || span % SecondsPerDay == 0
  }

  /**
   * The time of day that `new DateTime(y, m, d, span.Hours, span.Minutes,
   * span.Seconds)` gets from a span: the whole days are dropped; a negative
   * span with negative components is rejected with an exception (None).
   */
  function ClockOf(span: int): (r: Option<SecondOfDay>)
    ensures r.Some? <==> HasClock(span)
    ensures r.Some? ==> (span - r.value) % SecondsPerDay == 0
    ensures r.Some? && span >= 0 ==> r.value <= span
    ensures r.Some? && span < 0 ==> r.value == 0
    ensures 0 <= span < SecondsPerDay ==> r == Some(span)
  {
    if span < 0 && span % SecondsPerDay != 0 then None else Some(span % SecondsPerDay)
  }

  /** A raw trading interval of an instrument: begin and end as offsets from midnight. */
  datatype TimeSlice = TimeSlice(begin: int, end: int)

  /** A tradable instrument as the host describes it. */
  datatype Future = Future(id: string, exchangeId: string, priceTick: real)
}
