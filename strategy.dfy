/**
 * The strategy base of StrategyEx.cs: locating the trigger future, building
 * the sorted session of the trigger instrument, tracking which slice the
 * exchange clock is in and whether the strategy trades on the day or the night
 * session, and the daily setup of a simulated run.
 */
module Strategy {
  import opened Wrappers
  import opened Host
  import opened Seqs
  import opened SessionSlices
  import opened Deadlines

  datatype TradeDate = OnNight | OnDay

  const DefaultTimeSliceTolerance := 2 * SecondsPerMinute
  const DefaultDayTradeBegin := 8
  const DefaultDayTradeEnd := 16

  /** A slice is current at time of day `t` when `t`, pushed forward by the
      tolerance, lies strictly inside it. */
  predicate IsCurrentAt(slice: TimeSlice, t: int, tolerance: int)
  {
    slice.begin < t + tolerance < slice.end
  }

  function CurrentAt(t: int, tolerance: int): TimeSlice -> bool
  {
    s => IsCurrentAt(s, t, tolerance)
  }

  /** The position of the current slice: the last one, in list order, that is current at `t`. */
  function CurrentIndex(slices: seq<TimeSlice>, t: int, tolerance: int): (k: Option<nat>)
    ensures k.Some? ==> k.value < |slices| && IsCurrentAt(slices[k.value], t, tolerance)
    ensures k.Some? ==> forall j :: k.value < j < |slices| ==> !IsCurrentAt(slices[j], t, tolerance)
    ensures k.None? <==> forall j :: 0 <= j < |slices| ==> !IsCurrentAt(slices[j], t, tolerance)
  {
    LastIndex(slices, CurrentAt(t, tolerance))
  }

  /** The whole hour of a time of day lies strictly inside the day-trade window. */
  predicate InDayHours(t: SecondOfDay, dayTradeBegin: int, dayTradeEnd: int)
  {
    dayTradeBegin < t / SecondsPerHour < dayTradeEnd
  }

  /** The first future whose instrument id is `id`, if any. */
  function FindFuture(futures: seq<Future>, id: string): (r: Option<Future>)
    ensures r.Some? ==> r.value.id == id
    ensures r.Some? ==> exists i :: 0 <= i < |futures| && futures[i] == r.value
                                   && forall j :: 0 <= j < i ==> futures[j].id != id
    ensures r.None? <==> forall f :: f in futures ==> f.id != id
  {
    match FirstIndex(futures, (f: Future) => f.id == id)
    case None => None
    case Some(i) => Some(futures[i])
  }

  /** A slice that begins strictly between 20:00 and 23:00 reveals a night session. */
  predicate OpensAtNight(slice: TimeSlice)
  {
    20 * SecondsPerHour < slice.begin < 23 * SecondsPerHour
  }

  /** A slice that begins strictly between 08:50 and 10:00 opens the day session. */
  predicate OpensTheDay(slice: TimeSlice)
  {
    8 * SecondsPerHour + 50 * SecondsPerMinute < slice.begin < 10 * SecondsPerHour
  }

  function OpensTheDayP(): TimeSlice -> bool
  {
    s => OpensTheDay(s)
  }

  class StrategyEx {
    const timeSliceTolerance: int
    const dayTradeBegin: int
    const dayTradeEnd: int
    var isTradeBreak: bool
    var hasNightTrade: bool
    var tradeDate: TradeDate
    var tOpen: DateTime
    var currentTradeSlice: TimeSliceEx?
    var tradeSlices: seq<TimeSliceEx>
    var triggerFuture: Option<Future>

    constructor (timeSliceTolerance: int, dayTradeBegin: int, dayTradeEnd: int)
      ensures this.timeSliceTolerance == timeSliceTolerance
      ensures this.dayTradeBegin == dayTradeBegin && this.dayTradeEnd == dayTradeEnd
      ensures !isTradeBreak && !hasNightTrade && tradeDate == OnDay && tOpen == MinDateTime
      ensures currentTradeSlice == null && tradeSlices == [] && triggerFuture == None
    {
      this.timeSliceTolerance := timeSliceTolerance;
      this.dayTradeBegin := dayTradeBegin;
      this.dayTradeEnd := dayTradeEnd;
      isTradeBreak := false;
      hasNightTrade := false;
      tradeDate := OnDay;
      tOpen := MinDateTime;
      currentTradeSlice := null;
      tradeSlices := [];
      triggerFuture := None;
    }

    /** A strategy with the default parameters: a two-minute tolerance and a
        day-trade window from 08:00 to 16:00. */
    constructor Default()
      ensures timeSliceTolerance == DefaultTimeSliceTolerance
      ensures dayTradeBegin == DefaultDayTradeBegin && dayTradeEnd == DefaultDayTradeEnd
      ensures !isTradeBreak && !hasNightTrade && tradeDate == OnDay && tOpen == MinDateTime
      ensures currentTradeSlice == null && tradeSlices == [] && triggerFuture == None
    {
      timeSliceTolerance := DefaultTimeSliceTolerance;
      dayTradeBegin := DefaultDayTradeBegin;
      dayTradeEnd := DefaultDayTradeEnd;
      isTradeBreak := false;
      hasNightTrade := false;
      tradeDate := OnDay;
      tOpen := MinDateTime;
      currentTradeSlice := null;
      tradeSlices := [];
      triggerFuture := None;
    }

    /** Picks the first future whose id is the trigger instrument; fails, leaving the
        trigger unset, when there is none. */
    method InitTriggerFuture(allFutures: seq<Future>, triggerInstrument: string) returns (ok: bool)
      modifies this`triggerFuture
      ensures ok <==> exists f :: f in allFutures && f.id == triggerInstrument
      ensures ok ==> triggerFuture == FindFuture(allFutures, triggerInstrument)
      ensures !ok ==> triggerFuture == old(triggerFuture)
    {
      for i := 0 to |allFutures|
        invariant forall j :: 0 <= j < i ==> allFutures[j].id != triggerInstrument
      {
        if allFutures[i].id == triggerInstrument {
          triggerFuture := Some(allFutures[i]);
          ghost var p := (f: Future) => f.id == triggerInstrument;
          assert FindFuture(allFutures, triggerInstrument) == Some(allFutures[i]) by {
            assert p(allFutures[i]);
            assert forall j :: 0 <= j < i ==> !p(allFutures[j]);
          }
          return true;
        }
      }
      return false;
    }

    /**
     * The trigger instrument's session: its raw slices classified against the
     * day-trade window and sorted night first, each session in clock order.
     */
    method SortInstrumentTradingTime(slices: seq<TimeSlice>) returns (r: seq<TimeSliceEx>)
      requires 0 <= dayTradeBegin
      requires forall s :: s in slices ==> s.begin >= 0
      ensures multiset(Slices(r)) == multiset(slices)
      ensures forall x :: x in r ==> fresh(x)
      ensures forall x :: x in r ==> (x.isDayTrade <==> InDayWindow(x.slice.begin, dayTradeBegin, dayTradeEnd))
      ensures SortedBy(TimeSliceComparer(DefaultDayBreak), Views(r))
      ensures forall i, j :: 0 <= i < |r| && 0 <= j < |r| && !r[i].isDayTrade && r[j].isDayTrade ==> i < j
    {
      var tse := CreateSlicesInWindow(slices, dayTradeBegin, dayTradeEnd);
      forall x | x in tse
        ensures x.isDayTrade <==> InDayWindow(x.slice.begin, dayTradeBegin, dayTradeEnd)
        ensures WellFormed(x.View())
      {
        var i :| 0 <= i < |tse| && tse[i] == x;
        assert Slices(tse)[i] == x.slice;
        assert slices[i] in slices;
      }
      r := SortByComparer(tse, TimeSliceComparer(DefaultDayBreak));
      forall x | x in r
        ensures x in tse
      {
        assert x in multiset(r);
      }
      forall i, j | 0 <= i < |r| && 0 <= j < |r| && !r[i].isDayTrade && r[j].isDayTrade
        ensures i < j
      {
        var vs := Views(r);
        forall u | u in vs
          ensures WellFormed(u)
        {
          var k :| 0 <= k < |vs| && vs[k] == u;
          assert r[k] in r;
        }
        SortedPutsNightFirst(TimeSliceComparer(DefaultDayBreak), vs, i, j);
      }
    }

    /** Builds the sorted session from the trigger instrument's raw slices; fails when it is empty. */
    method InitTradeSlice(slices: seq<TimeSlice>) returns (ok: bool)
      requires 0 <= dayTradeBegin
      requires forall s :: s in slices ==> s.begin >= 0
      modifies this`tradeSlices
      ensures multiset(Slices(tradeSlices)) == multiset(slices)
      ensures forall x :: x in tradeSlices ==> fresh(x)
      ensures forall x :: x in tradeSlices ==> (x.isDayTrade <==> InDayWindow(x.slice.begin, dayTradeBegin, dayTradeEnd))
      ensures SortedBy(TimeSliceComparer(DefaultDayBreak), Views(tradeSlices))
      ensures forall i, j :: 0 <= i < |tradeSlices| && 0 <= j < |tradeSlices| && !tradeSlices[i].isDayTrade && tradeSlices[j].isDayTrade ==> i < j
      ensures ok <==> slices != []
    {
      tradeSlices := SortInstrumentTradingTime(slices);
      ok := |tradeSlices| != 0;
      if slices != [] {
        assert slices[0] in multiset(Slices(tradeSlices));
      }
    }

    /** Sets the current slice to the last slice, in list order, that is current at
        the exchange time of day, or to none; a break is exactly the absence of one. */
    method UpdateTradeSlice(now: DateTime)
      modifies this`currentTradeSlice, this`isTradeBreak
      ensures var k := CurrentIndex(Slices(tradeSlices), now.time, timeSliceTolerance);
        && (k.None? ==> currentTradeSlice == null)
        && (k.Some? ==> currentTradeSlice == tradeSlices[k.value])
      ensures isTradeBreak <==> currentTradeSlice == null
    {
      currentTradeSlice := null;
      ghost var ss := Slices(tradeSlices);
      for i := 0 to |tradeSlices|
        invariant var k := CurrentIndex(ss[..i], now.time, timeSliceTolerance);
          && (k.None? ==> currentTradeSlice == null)
          && (k.Some? ==> k.value < i && currentTradeSlice == tradeSlices[k.value])
      {
        var slice := tradeSlices[i];
        assert ss[..i + 1] == ss[..i] + [slice.slice];
        LastIndexSnoc(ss[..i], slice.slice, CurrentAt(now.time, timeSliceTolerance));
        if now.time + timeSliceTolerance > slice.slice.begin && now.time + timeSliceTolerance < slice.slice.end {
          currentTradeSlice := slice;
        }
      }
      assert ss[..|tradeSlices|] == ss;
      isTradeBreak := currentTradeSlice == null;
    }

    /** Follows the current slice's session when there is one; during a break,
        trades on the day session exactly when the hour is inside the day-trade window. */
    method UpdateTradeDay(now: DateTime)
      modifies this`tradeDate
      ensures currentTradeSlice != null ==> (tradeDate == OnDay <==> currentTradeSlice.isDayTrade)
      ensures currentTradeSlice == null ==> (tradeDate == OnDay <==> InDayHours(now.time, dayTradeBegin, dayTradeEnd))
    {
      if currentTradeSlice != null {
        tradeDate := if currentTradeSlice.isDayTrade then OnDay else OnNight;
      } else {
        var hours := now.time / SecondsPerHour;
        if hours > dayTradeBegin && hours < dayTradeEnd {
          tradeDate := OnDay;
        } else {
          tradeDate := OnNight;
        }
      }
    }

    /** One tick: the session of the freshly located slice decides the trade date. */
    method Update(now: DateTime)
      modifies this`currentTradeSlice, this`isTradeBreak, this`tradeDate
      ensures var k := CurrentIndex(Slices(tradeSlices), now.time, timeSliceTolerance);
        && (isTradeBreak <==> k.None?)
        && (k.Some? ==> currentTradeSlice == tradeSlices[k.value]
                        && (tradeDate == OnDay <==> tradeSlices[k.value].isDayTrade))
        && (k.None? ==> currentTradeSlice == null
                        && (tradeDate == OnDay <==> InDayHours(now.time, dayTradeBegin, dayTradeEnd)))
    {
      UpdateTradeSlice(now);
      UpdateTradeDay(now);
    }

    /**
     * The once-a-day setup of a simulated run: notes a night session when a
     * slice begins between 20:00 and 23:00 (the flag is never cleared); without
     * one, the open time becomes the trading date at the begin of the last
     * slice beginning between 08:50 and 10:00.
     */
    method OnSimulateTimesSetup(slices: seq<TimeSlice>, tradingDate: DateTime)
      modifies this`hasNightTrade, this`tOpen
      ensures hasNightTrade <==> old(hasNightTrade) || exists s :: s in slices && OpensAtNight(s)
      ensures hasNightTrade ==> tOpen == old(tOpen)
      ensures !hasNightTrade ==>
        match LastIndex(slices, OpensTheDayP())
        case None => tOpen == old(tOpen)
        case Some(k) => tOpen == DateTime(tradingDate.date, slices[k].begin)
    {
      for i := 0 to |slices|
        invariant hasNightTrade == old(hasNightTrade)
        invariant forall j :: 0 <= j < i ==> !OpensAtNight(slices[j])
      {
        var slice := slices[i];
        if slice.begin > 20 * SecondsPerHour && slice.begin < 23 * SecondsPerHour {
          hasNightTrade := true;
          assert slice in slices;
          break;
        }
      }
      assert !hasNightTrade ==> forall s :: s in slices ==> !OpensAtNight(s);
      if !hasNightTrade {
        for i := 0 to |slices|
          invariant !hasNightTrade
          invariant match LastIndex(slices[..i], OpensTheDayP())
            case None => tOpen == old(tOpen)
            case Some(k) => tOpen == DateTime(tradingDate.date, slices[k].begin)
        {
          var slice := slices[i];
          assert slices[..i + 1] == slices[..i] + [slice];
          LastIndexSnoc(slices[..i], slice, OpensTheDayP());
          if slice.begin > 8 * SecondsPerHour + 50 * SecondsPerMinute && slice.begin < 10 * SecondsPerHour {
            tOpen := MakeDateByDay(tradingDate, slice.begin).value;
          }
        }
        assert slices[..|slices|] == slices;
      }
    }
  }
}
