# Session slices, deadlines and hedge order tracking — a Dafny model

This project models the trading-session and order-tracking layer of an
intraday two-instrument hedge strategy (`MarketResearch/Extension`):

- **Session slices** (`SessionSlices`, TimeSliceEx.cs): a host trading slice
  tagged as day or night session by the day-trade window, the lists of such
  slices, and the comparer that orders night slices before day slices, with
  night begins before the 06:00 day-break counted as the next calendar day.
- **Deadlines** (`Deadlines`, UtilsEx.cs): the tolerance test, the date-time
  builder, and the deadline calculator. The calculator walks the ordered
  slices forward or backward, subtracting slice lengths from a budget, and
  places the deadline inside the slice that owns it. It uses the previous
  trading date for a night slice and the current one for a day slice.
- **Deadline timer** (`Timers`, DeadlineTimer.cs): a fixed deadline, optional
  ticking and hit callbacks (recorded in a ghost log) and a one-way decayed flag.
- **Hedge order tracer** (`Hedging`, HedgeOrderTracer.cs): the per-leg
  four-state order lifecycle with its submission lock, attempt and failure
  counters, and the bull/bear side and price rule.
- **Strategy base** (`Strategy`, StrategyEx.cs): locating the trigger
  future, building the sorted session, tracking the current slice and the
  day/night trade date, and the daily setup of a simulated run.

`Host` holds the runtime's value types (dates, date-times, slices, futures).
`Seqs` holds the first/last-match searches that the source writes as
`foreach` loops. `Wrappers` holds `Option`.

Representation choices:

- Times of day and spans are whole seconds.
- A date-time is a (year, month, day) date plus a second of the day.
- Prices are `real`.
- The deadline budget is in seconds: the source's minutes times 60.
- Building a date-time takes the span's hour, minute and second components.
  For a negative span that is not a whole number of days these are negative,
  and the runtime throws; this is modelled as `None`. A negative whole number
  of days has all components zero and gives midnight.
- Classes model the objects whose fields the source updates in place:
  `TimeSliceEx`, `DeadlineTimer`, `HedgeOrderTracer`, `StrategyEx`, and the
  host's `Order` handle.
- The comparer and the deadline calculator read value snapshots (`SessionSlice`).

Behaviour of the code that a reader might not expect:

- The timer's `Update` never reads the decayed flag. It runs the hit callback,
  and returns true, on every call at or after the deadline, not only on the
  call that decays the timer, as a one-shot timer would. See Findings.
- When no slice owns the deadline, the calculator returns the trading date
  `date` it was given, not the current time.
- `List.Sort` is not stable, so the order among slices that compare equal is
  not fixed. Only sortedness and permutation are claimed.
- `UpdateTradeType` can still turn a night slice into a day slice after
  construction. It never turns a day slice back to night.

## Model

| member | source | states |
|---|---|---|
| SessionSlices.TimeSliceEx.constructor | MarketResearch/Extension/TimeSliceEx.cs:48-51 | a new tagged slice wraps the given host slice and starts as night |
| SessionSlices.TimeSliceEx.WithWindow | MarketResearch/Extension/TimeSliceEx.cs:53-58 | a slice built with a window is day exactly when its begin lies strictly between the window's hours (in seconds) |
| SessionSlices.TimeSliceEx.UpdateTradeType | MarketResearch/Extension/TimeSliceEx.cs:64-76 | afterwards the slice is day iff it was day already or its begin lies strictly inside the window; the end is ignored and a day slice never reverts to night |
| SessionSlices.CreateSlices | MarketResearch/Extension/TimeSliceEx.cs:21-32 | the result wraps the input slices one for one, in order, as distinct fresh objects that are all night |
| SessionSlices.CreateSlicesInWindow | MarketResearch/Extension/TimeSliceEx.cs:34-46 | the result wraps the input slices one for one, in order, as distinct fresh objects, and element i is day iff input i begins strictly inside the window |
| SessionSlices.Sign | MarketResearch/Extension/TimeSliceEx.cs:100-113 | the comparison result is negative, zero or positive exactly as the difference is |
| SessionSlices.TimeSliceComparer.Compare | MarketResearch/Extension/TimeSliceEx.cs:95-114 | the result is -1, 0 or 1; slices of the same session tie exactly when their (wrapped) begins are equal; of a well-formed night and day slice the night one is smaller |
| SessionSlices.CompareIsKeyOrder | MarketResearch/Extension/TimeSliceEx.cs:95-114 | on well-formed slices the comparer is the lexicographic order of (night 0 / day 1, begin wrapped past the day-break) |
| SessionSlices.CompareReflexiveAntisymmetric | MarketResearch/Extension/TimeSliceEx.cs:95-114 | every slice compares equal to itself and swapping the arguments negates the result |
| SessionSlices.CompareTransitive | MarketResearch/Extension/TimeSliceEx.cs:95-114 | on well-formed slices, x ≤ y and y ≤ z give x ≤ z |
| SessionSlices.NightPrecedesDay | MarketResearch/Extension/TimeSliceEx.cs:110-113 | a night slice with a non-negative begin sorts strictly before a day slice with a positive begin, both ways round |
| SessionSlices.NightWrapsPastMidnight | MarketResearch/Extension/TimeSliceEx.cs:101-108 | of two night slices, one beginning before the day-break sorts after one beginning later that evening |
| SessionSlices.HalfPastMidnightAfterNine | MarketResearch/Extension/TimeSliceEx.cs:87-108 | with the default 06:00 day-break a night slice at 00:30 sorts after one at 21:00 |
| SessionSlices.InsertKeepsSorted | MarketResearch/Extension/StrategyEx.cs:146 | inserting a slice after every slice not greater than it keeps the list sorted by the comparer |
| SessionSlices.InsertSorted | MarketResearch/Extension/StrategyEx.cs:146 | inserting into a sorted list adds exactly that slice and keeps the list sorted |
| SessionSlices.SortByComparer | MarketResearch/Extension/StrategyEx.cs:146 | the result is a permutation of the input (objects and host slices) sorted by the comparer |
| SessionSlices.SortedPutsNightFirst | MarketResearch/Extension/StrategyEx.cs:135-148 | in a list sorted by the comparer every night slice comes before every day slice |
| Deadlines.IsHit | MarketResearch/Extension/UtilsEx.cs:12-15 | true iff the input lies strictly within the tolerance of the measure |
| Deadlines.IsHitSymmetric | MarketResearch/Extension/UtilsEx.cs:12-15 | the test is symmetric in input and measure and never holds for a tolerance that is not positive |
| Deadlines.MakeDateByDay | MarketResearch/Extension/UtilsEx.cs:17-20 | the result has the trading date's day and the span's time of day (whole days dropped); a negative span that is not a whole number of days is an error |
| Deadlines.NegativeSpans | MarketResearch/Extension/UtilsEx.cs:17-20 | minus one day gives midnight of the trading date, minus one hour is an error |
| Host.ClockOf | MarketResearch/Extension/UtilsEx.cs:19 | the time of day is congruent to the span modulo a day (a span under one day gives itself, a negative whole number of days gives midnight); it fails exactly for a negative span that is not a whole number of days |
| Host.BeforeIsStrictTotalOrder | MarketResearch/Extension/DeadlineTimer.cs:30 | date-time order is irreflexive, asymmetric, total and transitive |
| Deadlines.ScanForward | MarketResearch/Extension/UtilsEx.cs:37-54 | the recursive forward walk; the slice it stops at lies at or after the one it starts from (the full characterisation is ScanForwardFirstFit) |
| Deadlines.ScanBackward | MarketResearch/Extension/UtilsEx.cs:55-72 | the recursive backward walk; the slice it stops at lies before the one it starts from (the full characterisation is ScanBackwardLastFit) |
| Deadlines.DeadlineOf | MarketResearch/Extension/UtilsEx.cs:31-75 | the reference definition of the calculator; any deadline it gives falls on the current or the previous trading date |
| Deadlines.ScanForwardFirstFit | MarketResearch/Extension/UtilsEx.cs:37-54 | the forward walk stops at the first slice whose length is at least the budget left after the slices before it; it finds none exactly when the budget exceeds the total length |
| Deadlines.ScanBackwardLastFit | MarketResearch/Extension/UtilsEx.cs:55-72 | the backward walk stops at the last slice whose length is at least the budget left after the slices behind it; it finds none exactly when the budget exceeds the total length |
| Deadlines.PlaceInDay | MarketResearch/Extension/UtilsEx.cs:49-51 | the deadline is on the previous trading date for a night slice and on the current one for a day slice, at the span's time of day; a negative span that is not a whole number of days is an error |
| Deadlines.CalcDeadline | MarketResearch/Extension/UtilsEx.cs:31-75 | the loop computes exactly the deadline that the recursive walks define, in both directions and for the fallback |
| Deadlines.ByBeginPlacement | MarketResearch/Extension/UtilsEx.cs:37-54 | ByBegin: the deadline is the owning slice's begin plus the budget left, modulo a day, on that slice's date |
| Deadlines.ByEndPlacement | MarketResearch/Extension/UtilsEx.cs:55-72 | ByEnd: the deadline is the owning slice's end minus the budget left, modulo a day, on that slice's date |
| Deadlines.DeadlineFallback | MarketResearch/Extension/UtilsEx.cs:74 | with no slices, or a budget beyond their total length, the result is the trading date unchanged |
| Deadlines.ByBeginExactPrefixLandsOnEnd | MarketResearch/Extension/UtilsEx.cs:43-51 | a budget equal to the length of slices 0..i lands on the end of slice i, not on the next slice |
| Deadlines.ByEndExactSuffixLandsOnBegin | MarketResearch/Extension/UtilsEx.cs:61-69 | a budget equal to the length of slices i..n-1 lands on the begin of slice i, not on the slice before |
| Deadlines.ZeroBudget | MarketResearch/Extension/UtilsEx.cs:31-75 | a zero budget gives the first slice's begin (ByBegin) or the last slice's end (ByEnd) |
| Deadlines.FiveSliceSessionDeadlines | MarketResearch/Extension/UtilsEx.cs:31-75 | on a night-plus-day session, 30 minutes in is 21:30 on the previous trading date and 3 minutes before the end is 14:57 on the current one |
| Timers.DeadlineTimer.constructor | MarketResearch/Extension/DeadlineTimer.cs:20-26 | a new timer keeps its deadline and callbacks, is not decayed, and has run no callback |
| Timers.DeadlineTimer.IsDeadlineHit | MarketResearch/Extension/DeadlineTimer.cs:28-31 | the deadline is hit exactly when now equals or follows it |
| Timers.HitIsPermanent | MarketResearch/Extension/DeadlineTimer.cs:28-40 | once the deadline is hit it stays hit at every later time |
| Timers.DeadlineTimer.Update | MarketResearch/Extension/DeadlineTimer.cs:33-46 | returns true iff now is at or after the deadline; then only the hit callback runs and the timer decays; before the deadline only the ticking callback runs and the decayed flag is kept; decay is never undone |
| Timers.HitFiresOnEveryLateUpdate | MarketResearch/Extension/DeadlineTimer.cs:35-41 | two updates at the deadline run the hit callback twice |
| Timers.DeadlineTimer.UpdateOnce | MarketResearch/Extension/DeadlineTimer.cs:33-46 | corrected update: keeps "the hit callback has run once iff the timer has decayed" |
| Timers.HitFiresOnceWithUpdateOnce | MarketResearch/Extension/DeadlineTimer.cs:35-41 | with the corrected update the same two calls run the hit callback once |
| Hedging.OpenDir | MarketResearch/Extension/HedgeOrderTracer.cs:143-147 | a bearish leg opens by buying, a bullish one by selling |
| Hedging.CloseDir | MarketResearch/Extension/HedgeOrderTracer.cs:149-153 | a leg closes on the side opposite to its opening side |
| Hedging.OpenPrice | MarketResearch/Extension/HedgeOrderTracer.cs:131-135 | the opening price lies the offset (ticks times diff) above the last price for a buy and below it for a sell |
| Hedging.ClosePrice | MarketResearch/Extension/HedgeOrderTracer.cs:137-141 | the closing price lies the offset above the last price for a buy and below it for a sell, and mirrors the opening price about the last price |
| Hedging.OrdersCrossTheMarket | MarketResearch/Extension/HedgeOrderTracer.cs:131-141 | with a non-negative offset a buy is priced at or above the last price, a sell at or below, and the closing price mirrors the opening one about the last price |
| Hedging.HedgeOrderTracer.constructor | MarketResearch/Extension/HedgeOrderTracer.cs:36-50 | a new tracer waits to open, is unlocked, has all four counters at 0 and has sent nothing |
| Hedging.HedgeOrderTracer.IsPositionEmpty | MarketResearch/Extension/HedgeOrderTracer.cs:31 | true iff waiting to open; then no order is outstanding and every open was closed |
| Hedging.HedgeOrderTracer.IsPositionOpen | MarketResearch/Extension/HedgeOrderTracer.cs:32 | true iff waiting to close; then no order is outstanding and the last order sent opened the position |
| Hedging.HedgeOrderTracer.OpenPosition | MarketResearch/Extension/HedgeOrderTracer.cs:53-71 | a no-op when locked or not waiting to open; otherwise sends exactly one opening order for the leg's volume with the market type's side and price, locks, waits for it and counts one open attempt; keeps the lock/status invariant |
| Hedging.HedgeOrderTracer.ClosePosition | MarketResearch/Extension/HedgeOrderTracer.cs:74-90 | a no-op when locked or not waiting to close; otherwise sends exactly one closing order on the opposite side, locks, waits for it and counts one close attempt; keeps the invariant |
| Hedging.HedgeOrderTracer.OnOrderStatusChange | MarketResearch/Extension/HedgeOrderTracer.cs:93-122 | ignores other orders; a fill advances the status and unlocks; a void counts one failure for the pending side and keeps status and lock; keeps the invariant |
| Hedging.RoundTrip | MarketResearch/Extension/HedgeOrderTracer.cs:53-111 | open, fill, close, fill sends an opening and then an opposite closing order and returns the tracer to waiting to open |
| Hedging.VoidedOpenStaysLocked | MarketResearch/Extension/HedgeOrderTracer.cs:112-121 | after a voided opening order the leg stays locked; later open and close calls send nothing |
| Seqs.FirstIndex | MarketResearch/Extension/StrategyEx.cs:54-61 | the first position that matches, or none exactly when nothing matches |
| Seqs.LastIndex | MarketResearch/Extension/StrategyEx.cs:100-107 | the last position that matches, or none exactly when nothing matches |
| Strategy.FindFuture | MarketResearch/Extension/StrategyEx.cs:50-64 | the first future with the trigger id, or none exactly when no future has it |
| Strategy.CurrentIndex | MarketResearch/Extension/StrategyEx.cs:99-107 | the last slice with begin < now + tolerance < end, or none exactly when no slice has it |
| Strategy.StrategyEx.constructor | MarketResearch/Extension/StrategyEx.cs:16-33 | starts with no break, no night trade, trading on the day session, the minimal open time, no slices and no trigger future |
| Strategy.StrategyEx.Default | MarketResearch/Extension/StrategyEx.cs:17-33 | the field initialisers: a 120-second tolerance, a day-trade window from 8 to 16, no break, no night trade, the day session, no slices |
| Strategy.StrategyEx.InitTriggerFuture | MarketResearch/Extension/StrategyEx.cs:50-64 | succeeds iff some future has the trigger id, and then picks the first such future |
| Strategy.StrategyEx.SortInstrumentTradingTime | MarketResearch/Extension/StrategyEx.cs:142-148 | returns the raw slices, classified by the window, permuted into comparer order, with every night slice before every day slice |
| Strategy.StrategyEx.InitTradeSlice | MarketResearch/Extension/StrategyEx.cs:75-85 | stores the raw slices as fresh objects classified by the window, permuted into comparer order with night before day, and succeeds iff the instrument has trading slices |
| Strategy.StrategyEx.UpdateTradeSlice | MarketResearch/Extension/StrategyEx.cs:95-110 | the current slice is the last one with begin < now + tolerance < end, or none; it is a break exactly when there is none |
| Strategy.StrategyEx.UpdateTradeDay | MarketResearch/Extension/StrategyEx.cs:112-123 | with a current slice, trades on the day session iff that slice is day; without one, iff the hour lies strictly inside the day-trade hours |
| Strategy.StrategyEx.Update | MarketResearch/Extension/StrategyEx.cs:89-93 | the trade date follows the freshly located slice, or the hour window during a break |
| Strategy.StrategyEx.OnSimulateTimesSetup | MarketResearch/Extension/StrategyEx.cs:152-191 | night trade is noted iff some slice begins strictly between 20:00 and 23:00, and never cleared; without it the open time becomes the trading date at the begin of the last slice beginning strictly between 08:50 and 10:00 |

## Left out

- `UtilsEx.MakeDateByNight` and its two calls in `onSimulateTimesSetup`: it needs the trading-calendar helper, which is not part of this model. Its results are discarded, so leaving it out changes no state.
- `initTriggerExchange`, `CustomInit` and `CurrentTime`: they go through the host's exchange lookup and clock. The exchange time is a parameter (`now`) of the update methods instead.
- `GetInstrumentTradingTime`, `AllFutures` and `SendOrder` are host calls. The raw slices and the future list are parameters; a missing future list is the empty sequence. An order sent is a fresh `Order` handle whose status the host sets.
- Logging and printing (`Print`, `PrintHitStatus`, `PrintRunningDate`, `ToString`) are left out. So are the account, market, price-type, time-in-force and hedge-flag arguments of `SendOrder`, which are the same for every order.
- Floating point: prices are exact reals; times, tolerances and budgets are whole seconds.
- Deadlines.CalcDeadline: the budget is whole seconds, so fractional minutes and the truncation to whole seconds are not modelled.
- Strategy.StrategyEx.UpdateTradeSlice: the tolerance and the exchange time are whole seconds, not `double` seconds.
- Deadlines.AbsDuration: a slice's duration belongs to the host library; it is taken to be its end minus its begin.
- Strategy.StrategyEx.Update: before initialisation the source's slice list and exchange are null, so an update throws. The model starts from an empty slice list and does not throw.
- Strategy.StrategyEx.Update: the source reads the exchange clock twice, once for the slice and once for the hour. The model reads it once, as the parameter `now`.
- Calendar arithmetic: dates are opaque (year, month, day) triples. Nothing rolls over a day, month or year, and `DateTime` comparison is the lexicographic order of (date, time).
- Strategy.StrategyEx.InitTradeSlice and Strategy.StrategyEx.SortInstrumentTradingTime require a window that opens at or after midnight and slices with non-negative begins. Only then is the comparer a consistent total order. Otherwise the runtime's sort is unspecified.
- SessionSlices.SortByComparer: an insertion sort stands in for the runtime's `List.Sort`. It claims sortedness and permutation only, not stability and not the runtime's order among equal slices.
- Timers.DeadlineTimer.Update: callbacks are foreign code. A run is recorded as an entry in a ghost log, not executed.
- `EnableUpdateSlice`, `_tClose` and `_triggerExchange` are never read by the modelled code, so they are not fields of the model.

## Findings

| source | as written | input that shows it | evidently intended | confidence | as-written member | corrected member |
|---|---|---|---|---|---|---|
| MarketResearch/Extension/DeadlineTimer.cs:33-41 | `Update` does not consult the decayed flag, so the hit callback runs on every call at or after the deadline | a timer with a hit callback, updated twice at its deadline, runs the hit callback twice | the hit callback runs once, on the call that decays the timer, as a one-shot timer whose decayed state is published through `IsDecay` suggests | medium, not executed | Timers.HitFiresOnEveryLateUpdate | Timers.DeadlineTimer.UpdateOnce |
