/**
 * Helpers of UtilsEx.cs: the tolerance test, the date-time builder and the
 * deadline calculator that turns a budget measured from the first or the last
 * trading slice into an absolute date-time.
 *
 * The budget is given in seconds (the source's minutes times 60), so the
 * comparison of the remaining budget with a slice's duration is exact.
 * A result of None stands for the exception the runtime raises when it is asked
 * to build a date-time from a negative time of day.
 */
module Deadlines {
  import opened Wrappers
  import opened Host
  import opened SessionSlices

  function Abs(x: real): real
  {
    if x < 0.0 then -x else x
  }

  /** Whether `input` is within `tolerance` of `measure`, the bound excluded. */
  function IsHit(input: real, measure: real, tolerance: real): (r: bool)
    ensures r <==> measure - tolerance < input < measure + tolerance
  {
    Abs(input - measure) < tolerance
  }

  /** The tolerance test is symmetric and never holds for a tolerance that is not positive. */
  lemma IsHitSymmetric(a: real, b: real, tolerance: real)
    ensures IsHit(a, b, tolerance) == IsHit(b, a, tolerance)
    ensures tolerance <= 0.0 ==> !IsHit(a, b, tolerance)
  {
  }

  /** The trading date's year, month and day with the time of day of `span`. */
  function MakeDateByDay(tradeDate: DateTime, span: int): (r: Option<DateTime>)
    ensures r.Some? <==> HasClock(span)
    ensures r.Some? ==> r.value.date == tradeDate.date
    ensures r.Some? ==> (span - r.value.time) % SecondsPerDay == 0
    ensures r.Some? && span >= 0 ==> r.value.time <= span
    ensures r.Some? && span < 0 ==> r.value.time == 0
    ensures 0 <= span < SecondsPerDay ==> r == Some(DateTime(tradeDate.date, span))
  {
    match ClockOf(span)
    case None => None
    case Some(t) => Some(DateTime(tradeDate.date, t))
  }

  datatype DeadlineDir = ByEnd | ByBegin

  /** The length of a slice in seconds, whichever way round its ends are. */
  function AbsDuration(s: TimeSlice): nat
  {
    if s.end >= s.begin then s.end - s.begin else s.begin - s.end
  }

  function Durations(ss: seq<SessionSlice>): (ds: seq<nat>)
    ensures |ds| == |ss|
  {
    seq(|ss|, i requires 0 <= i < |ss| => AbsDuration(ss[i].slice))
  }

  /** The sum of ds[lo..hi]. */
  function SumRange(ds: seq<nat>, lo: nat, hi: nat): nat
    requires lo <= hi <= |ds|
    decreases hi - lo
  {
    if lo == hi then 0 else ds[lo] + SumRange(ds, lo + 1, hi)
  }

  lemma {:induction false} SumRangeSplit(ds: seq<nat>, lo: nat, mid: nat, hi: nat)
    requires lo <= mid <= hi <= |ds|
    ensures SumRange(ds, lo, hi) == SumRange(ds, lo, mid) + SumRange(ds, mid, hi)
    decreases mid - lo
  {
    if lo < mid {
      SumRangeSplit(ds, lo + 1, mid, hi);
    }
  }

  /**
   * The forward walk from slice `i` with `budget` seconds left: the slice that
   * owns the deadline and the budget left inside it. A slice owns the deadline
   * when the budget left does not exceed its duration.
   */
  function ScanForward(ds: seq<nat>, i: nat, budget: int): (r: Option<(nat, int)>)
    requires i <= |ds|
    ensures r.Some? ==> i <= r.value.0 < |ds|
    decreases |ds| - i
  {
    if i == |ds| then None
    else if budget > ds[i] then ScanForward(ds, i + 1, budget - ds[i])
    else Some((i, budget))
  }

  /**
   * The forward walk stops at the first slice whose duration is at least the
   * budget left after the slices before it, and finds none exactly when the
   * budget exceeds the total duration (or there are no slices).
   */
  lemma {:induction false} ScanForwardFirstFit(ds: seq<nat>, i: nat, budget: int)
    requires i <= |ds|
    ensures var r := ScanForward(ds, i, budget);
      && (r.Some? ==> r.value.1 <= ds[r.value.0] && r.value.1 == budget - SumRange(ds, i, r.value.0))
      && (r.Some? ==> forall j :: i <= j < r.value.0 ==> budget - SumRange(ds, i, j) > ds[j])
      && (r.None? <==> i == |ds| || budget > SumRange(ds, i, |ds|))
    decreases |ds| - i
  {
    if i < |ds| && budget > ds[i] {
      ScanForwardFirstFit(ds, i + 1, budget - ds[i]);
    }
  }

  /**
   * The backward walk over ds[..k], from slice k-1 down, with `budget`
   * seconds left: the owning slice and the budget left inside it.
   */
  function ScanBackward(ds: seq<nat>, k: nat, budget: int): (r: Option<(nat, int)>)
    requires k <= |ds|
    ensures r.Some? ==> r.value.0 < k
    decreases k
  {
    if k == 0 then None
    else if budget > ds[k - 1] then ScanBackward(ds, k - 1, budget - ds[k - 1])
    else Some((k - 1, budget))
  }

  /** Walking back from slice k-1, slice j is passed over: the budget left after
      the slices behind it (up to k) is larger than its duration. */
  ghost predicate SkippedFromEnd(ds: seq<nat>, k: nat, budget: int, j: nat)
    requires j < k <= |ds|
  {
    budget - SumRange(ds, j + 1, k) > ds[j]
  }

  /**
   * The backward walk stops at the last slice whose duration is at least the
   * budget left after the slices behind it, and finds none exactly when the
   * budget exceeds the total duration (or there are no slices).
   */
  lemma {:induction false} ScanBackwardLastFit(ds: seq<nat>, k: nat, budget: int)
    requires k <= |ds|
    ensures var r := ScanBackward(ds, k, budget);
      && (r.Some? ==> r.value.1 <= ds[r.value.0] && r.value.1 == budget - SumRange(ds, r.value.0 + 1, k))
      && (r.Some? ==> forall j :: r.value.0 < j < k ==> SkippedFromEnd(ds, k, budget, j))
      && (r.None? <==> k == 0 || budget > SumRange(ds, 0, k))
    decreases k
  {
    if k > 0 {
      SumRangeLastAll(ds, k);
      if budget > ds[k - 1] {
        ScanBackwardLastFit(ds, k - 1, budget - ds[k - 1]);
        var r := ScanBackward(ds, k, budget);
        if r.Some? {
          forall j | r.value.0 < j < k
            ensures SkippedFromEnd(ds, k, budget, j)
          {
            if j < k - 1 {
              assert SkippedFromEnd(ds, k - 1, budget - ds[k - 1], j);
            }
          }
        }
      }
    }
  }

  lemma SumRangeLastAll(ds: seq<nat>, k: nat)
    requires 0 < k <= |ds|
    ensures forall lo :: 0 <= lo <= k - 1 ==> SumRange(ds, lo, k) == SumRange(ds, lo, k - 1) + ds[k - 1]
  {
    forall lo | 0 <= lo <= k - 1
      ensures SumRange(ds, lo, k) == SumRange(ds, lo, k - 1) + ds[k - 1]
    {
      SumRangeSplit(ds, lo, k - 1, k);
    }
  }

  /** The date a deadline inside `owner` falls on: the previous trading date for a
      night slice, the current trading date for a day slice. */
  function DayOf(owner: SessionSlice, date: DateTime, preDate: DateTime): Date
  {
    if owner.isDayTrade then date.date else preDate.date
  }

  /** Places a deadline `span` seconds after midnight of the day its slice belongs to. */
  function PlaceInDay(owner: SessionSlice, span: int, date: DateTime, preDate: DateTime): (r: Option<DateTime>)
    ensures r.Some? <==> HasClock(span)
    ensures r.Some? ==> r.value.date == DayOf(owner, date, preDate)
    ensures r.Some? ==> (span - r.value.time) % SecondsPerDay == 0
    ensures r.Some? && span >= 0 ==> r.value.time <= span
    ensures r.Some? && span < 0 ==> r.value.time == 0
  {
    match ClockOf(span)
    case None => None
    case Some(t) => Some(DateTime(DayOf(owner, date, preDate), t))
  }

  /** The deadline that the calculator computes, as a function of its inputs. */
  function DeadlineOf(date: DateTime, preDate: DateTime, ss: seq<SessionSlice>, dir: DeadlineDir, budget: int): (r: Option<DateTime>)
    ensures r.Some? ==> r.value.date == date.date || r.value.date == preDate.date
  {
    var ds := Durations(ss);
    var scan := if dir == ByBegin then ScanForward(ds, 0, budget) else ScanBackward(ds, |ds|, budget);
    match scan
    case None => Some(date)
    case Some((i, rem)) =>
      var span := if dir == ByBegin then ss[i].slice.begin + rem else ss[i].slice.end - rem;
      PlaceInDay(ss[i], span, date, preDate)
  }

  /** How DeadlineOf reads a finished walk. */
  lemma DeadlineOfScan(date: DateTime, preDate: DateTime, ss: seq<SessionSlice>, dir: DeadlineDir, budget: int)
    ensures var ds := Durations(ss);
      var scan := if dir == ByBegin then ScanForward(ds, 0, budget) else ScanBackward(ds, |ds|, budget);
      && (scan.None? ==> DeadlineOf(date, preDate, ss, dir, budget) == Some(date))
      && (scan.Some? && dir == ByBegin ==>
            DeadlineOf(date, preDate, ss, dir, budget)
            == PlaceInDay(ss[scan.value.0], ss[scan.value.0].slice.begin + scan.value.1, date, preDate))
      && (scan.Some? && dir == ByEnd ==>
            DeadlineOf(date, preDate, ss, dir, budget)
            == PlaceInDay(ss[scan.value.0], ss[scan.value.0].slice.end - scan.value.1, date, preDate))
  {
  }

  /** Computes the deadline `budget` seconds into the session (ByBegin) or before its end (ByEnd). */
  method CalcDeadline(date: DateTime, preDate: DateTime, slices: seq<TimeSliceEx>, dir: DeadlineDir, budget: int)
    returns (r: Option<DateTime>)
    ensures r == DeadlineOf(date, preDate, Views(slices), dir, budget)
  {
    ghost var vs := Views(slices);
    ghost var ds := Durations(vs);
    assert forall j :: 0 <= j < |slices| ==> vs[j] == slices[j].View() && ds[j] == AbsDuration(slices[j].slice);
    var minLeap := budget;
    if dir == ByBegin {
      var i := 0;
      while i < |slices|
        invariant 0 <= i <= |slices|
        invariant ScanForward(ds, 0, budget) == ScanForward(ds, i, minLeap)
      {
        var slice := slices[i].slice;
        var totalSeconds := AbsDuration(slice);
        if minLeap > totalSeconds {
          minLeap := minLeap - totalSeconds;
        } else {
          DeadlineOfScan(date, preDate, vs, dir, budget);
          r := PlaceInDay(slices[i].View(), slice.begin + minLeap, date, preDate);
          return;
        }
        i := i + 1;
      }
    } else {
      var i := |slices|;
      while i > 0
        invariant 0 <= i <= |slices|
        invariant ScanBackward(ds, |ds|, budget) == ScanBackward(ds, i, minLeap)
      {
        var slice := slices[i - 1].slice;
        var totalSeconds := AbsDuration(slice);
        if minLeap > totalSeconds {
          minLeap := minLeap - totalSeconds;
        } else {
          DeadlineOfScan(date, preDate, vs, dir, budget);
          r := PlaceInDay(slices[i - 1].View(), slice.end - minLeap, date, preDate);
          return;
        }
        i := i - 1;
      }
    }
    DeadlineOfScan(date, preDate, vs, dir, budget);
    r := Some(date);
  }

  /** Slice `i` owns a deadline `budget` seconds into the session. */
  ghost predicate OwnsFromBegin(ds: seq<nat>, budget: int, i: nat)
  {
    && i < |ds|
    && budget - SumRange(ds, 0, i) <= ds[i]
    && forall j :: 0 <= j < i ==> budget - SumRange(ds, 0, j) > ds[j]
  }

  /** Slice `i` owns a deadline `budget` seconds before the end of the session. */
  ghost predicate OwnsFromEnd(ds: seq<nat>, budget: int, i: nat)
  {
    && i < |ds|
    && budget - SumRange(ds, i + 1, |ds|) <= ds[i]
    && forall j :: i < j < |ds| ==> SkippedFromEnd(ds, |ds|, budget, j)
  }

  /** At most one slice owns a deadline measured from the begin. */
  lemma OwnerUniqueFromBegin(ds: seq<nat>, budget: int, i: nat, k: nat)
    requires OwnsFromBegin(ds, budget, i) && OwnsFromBegin(ds, budget, k)
    ensures i == k
  {
  }

  /** At most one slice owns a deadline measured from the end. */
  lemma OwnerUniqueFromEnd(ds: seq<nat>, budget: int, i: nat, k: nat)
    requires OwnsFromEnd(ds, budget, i) && OwnsFromEnd(ds, budget, k)
    ensures i == k
  {
    ghost var skippedK := SkippedFromEnd(ds, |ds|, budget, k);
    ghost var skippedI := SkippedFromEnd(ds, |ds|, budget, i);
  }

  /** A walk back over all slices that finds a slice finds the owner. */
  lemma ScanBackwardFindsOwner(ds: seq<nat>, budget: int)
    ensures var r := ScanBackward(ds, |ds|, budget);
      r.Some? ==> OwnsFromEnd(ds, budget, r.value.0) && r.value.1 == budget - SumRange(ds, r.value.0 + 1, |ds|)
  {
    ScanBackwardLastFit(ds, |ds|, budget);
  }

  /**
   * ByBegin: the deadline lies in the first slice whose duration covers what is
   * left of the budget after the slices before it, that many seconds after the
   * slice's begin, on the date the slice belongs to.
   */
  lemma ByBeginPlacement(date: DateTime, preDate: DateTime, ss: seq<SessionSlice>, budget: int, i: nat)
    requires OwnsFromBegin(Durations(ss), budget, i)
    ensures var span := ss[i].slice.begin + budget - SumRange(Durations(ss), 0, i);
      DeadlineOf(date, preDate, ss, ByBegin, budget)
      == if HasClock(span) then Some(DateTime(DayOf(ss[i], date, preDate), span % SecondsPerDay)) else None
  {
    var ds := Durations(ss);
    ScanForwardFirstFit(ds, 0, budget);
    SumRangeSplit(ds, 0, i, |ds|);
    SumRangeSplit(ds, i, i + 1, |ds|);
    var r := ScanForward(ds, 0, budget);
    assert r.Some?;
    OwnerUniqueFromBegin(ds, budget, i, r.value.0);
    DeadlineOfScan(date, preDate, ss, ByBegin, budget);
  }

  /**
   * ByEnd: the deadline lies in the last slice whose duration covers what is
   * left of the budget after the slices behind it, that many seconds before the
   * slice's end, on the date the slice belongs to.
   */
  lemma ByEndPlacement(date: DateTime, preDate: DateTime, ss: seq<SessionSlice>, budget: int, i: nat)
    requires OwnsFromEnd(Durations(ss), budget, i)
    ensures var span := ss[i].slice.end - (budget - SumRange(Durations(ss), i + 1, |ss|));
      DeadlineOf(date, preDate, ss, ByEnd, budget)
      == if HasClock(span) then Some(DateTime(DayOf(ss[i], date, preDate), span % SecondsPerDay)) else None
  {
    var ds := Durations(ss);
    var r := ScanBackward(ds, |ds|, budget);
    assert r.Some? by {
      ScanBackwardLastFit(ds, |ds|, budget);
      SumRangeSplit(ds, 0, i, |ds|);
      SumRangeSplit(ds, i, i + 1, |ds|);
    }
    var k := r.value.0;
    ScanBackwardFindsOwner(ds, budget);
    OwnerUniqueFromEnd(ds, budget, i, k);
    DeadlineOfScan(date, preDate, ss, ByEnd, budget);
  }

  /** A budget beyond the total duration of all slices, or no slices at all, gives back `date`. */
  lemma DeadlineFallback(date: DateTime, preDate: DateTime, ss: seq<SessionSlice>, dir: DeadlineDir, budget: int)
    requires ss == [] || budget > SumRange(Durations(ss), 0, |ss|)
    ensures DeadlineOf(date, preDate, ss, dir, budget) == Some(date)
  {
    var ds := Durations(ss);
    ScanForwardFirstFit(ds, 0, budget);
    ScanBackwardLastFit(ds, |ds|, budget);
    DeadlineOfScan(date, preDate, ss, dir, budget);
  }

  /**
   * ByBegin: a budget equal to the total length of slices 0..i lands on the end
   * of slice i, not on the begin of slice i+1 (the walk only moves on when the
   * budget left is strictly larger than the slice).
   */
  lemma ByBeginExactPrefixLandsOnEnd(date: DateTime, preDate: DateTime, ss: seq<SessionSlice>, i: nat)
    requires i < |ss|
    requires 0 <= ss[i].slice.begin < ss[i].slice.end
    ensures DeadlineOf(date, preDate, ss, ByBegin, SumRange(Durations(ss), 0, i + 1))
      == Some(DateTime(DayOf(ss[i], date, preDate), ss[i].slice.end % SecondsPerDay))
  {
    var ds := Durations(ss);
    var budget := SumRange(ds, 0, i + 1);
    SumRangeSplit(ds, 0, i, i + 1);
    forall j | 0 <= j < i
      ensures budget - SumRange(ds, 0, j) > ds[j]
    {
      SumRangeSplit(ds, 0, j, i + 1);
      SumRangeSplit(ds, j + 1, i, i + 1);
    }
    assert OwnsFromBegin(ds, budget, i);
    ByBeginPlacement(date, preDate, ss, budget, i);
  }

  /**
   * ByEnd: a budget equal to the total length of slices i..n-1 lands on the
   * begin of slice i, not on the end of slice i-1.
   */
  lemma ByEndExactSuffixLandsOnBegin(date: DateTime, preDate: DateTime, ss: seq<SessionSlice>, i: nat)
    requires i < |ss|
    requires 0 <= ss[i].slice.begin < ss[i].slice.end
    ensures DeadlineOf(date, preDate, ss, ByEnd, SumRange(Durations(ss), i, |ss|))
      == Some(DateTime(DayOf(ss[i], date, preDate), ss[i].slice.begin % SecondsPerDay))
  {
    var ds := Durations(ss);
    var budget := SumRange(ds, i, |ds|);
    SumRangeSplit(ds, i, i + 1, |ds|);
    forall j | i < j < |ds|
      ensures SkippedFromEnd(ds, |ds|, budget, j)
    {
      SumRangeSplit(ds, i, j, |ds|);
      SumRangeSplit(ds, j, j + 1, |ds|);
      SumRangeSplit(ds, i, i + 1, j);
    }
    assert OwnsFromEnd(ds, budget, i);
    ByEndPlacement(date, preDate, ss, budget, i);
  }

  /** A zero budget gives the begin of the first slice (ByBegin) or the end of the last one (ByEnd). */
  lemma ZeroBudget(date: DateTime, preDate: DateTime, ss: seq<SessionSlice>)
    requires ss != [] && ss[0].slice.begin >= 0 && ss[|ss| - 1].slice.end >= 0
    ensures DeadlineOf(date, preDate, ss, ByBegin, 0)
      == Some(DateTime(DayOf(ss[0], date, preDate), ss[0].slice.begin % SecondsPerDay))
    ensures DeadlineOf(date, preDate, ss, ByEnd, 0)
      == Some(DateTime(DayOf(ss[|ss| - 1], date, preDate), ss[|ss| - 1].slice.end % SecondsPerDay))
  {
  }

  /** A span of minus one day is midnight of the trading date; minus one hour is an
      error. A budget of minus one day into a single night slice from midnight to 01:00
      gives midnight of the previous trading date. */
  lemma NegativeSpans(tradeDate: DateTime, preDate: DateTime)
    ensures MakeDateByDay(tradeDate, -SecondsPerDay) == Some(DateTime(tradeDate.date, 0))
    ensures MakeDateByDay(tradeDate, -SecondsPerHour) == None
    ensures DeadlineOf(tradeDate, preDate, [SessionSlice(TimeSlice(0, SecondsPerHour), false)], ByBegin, -SecondsPerDay)
      == Some(DateTime(preDate.date, 0))
  {
  }

  /** A session of two night and three day slices, as an exchange with a night session reports it. */
  const FiveSliceSession := [
    SessionSlice(TimeSlice(75600, 86400), false),
    SessionSlice(TimeSlice(0, 9000), false),
    SessionSlice(TimeSlice(32400, 36900), true),
    SessionSlice(TimeSlice(37800, 41400), true),
    SessionSlice(TimeSlice(48600, 54000), true)]

  /** Thirty minutes into that session is 21:30 on the previous trading date;
      three minutes before its end is 14:57 on the current trading date. */
  lemma FiveSliceSessionDeadlines(date: DateTime, preDate: DateTime)
    ensures DeadlineOf(date, preDate, FiveSliceSession, ByBegin, 30 * SecondsPerMinute) == Some(DateTime(preDate.date, 77400))
    ensures DeadlineOf(date, preDate, FiveSliceSession, ByEnd, 3 * SecondsPerMinute) == Some(DateTime(date.date, 53820))
  {
  }
}
