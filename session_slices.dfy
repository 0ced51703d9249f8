/**
 * Trading slices tagged as day or night session (TimeSliceEx.cs): the
 * classification of a slice against the day-trade window, the construction of
 * tagged lists, and the comparer that orders night slices before day slices.
 */
module SessionSlices {
  import opened Host

  /** A value snapshot of a tagged slice: what the comparer and the deadline calculator read. */
  datatype SessionSlice = SessionSlice(slice: TimeSlice, isDayTrade: bool)

  /** A begin offset lies inside the day-trade window given in whole hours; both bounds are exclusive. */
  predicate InDayWindow(begin: int, dayTradeBegin: int, dayTradeEnd: int)
  {
    dayTradeBegin * SecondsPerHour < begin < dayTradeEnd * SecondsPerHour
  }

  /** A host slice extended with a day/night flag that starts out as night. */
  class TimeSliceEx {
    const slice: TimeSlice
    var isDayTrade: bool

    constructor (slice: TimeSlice)
      ensures this.slice == slice && !isDayTrade
    {
      this.slice := slice;
      isDayTrade := false;
    }

    constructor WithWindow(slice: TimeSlice, dayTradeBegin: int, dayTradeEnd: int)
      ensures this.slice == slice
      ensures isDayTrade <==> InDayWindow(slice.begin, dayTradeBegin, dayTradeEnd)
    {
      this.slice := slice;
      isDayTrade := false;
      new;
      UpdateTradeType(dayTradeBegin, dayTradeEnd);
    }

    /** Marks the slice as day trade when its begin lies in the window; never marks it back as night. */
    method UpdateTradeType(dayTradeBegin: int, dayTradeEnd: int)
      modifies this`isDayTrade
      ensures isDayTrade <==> old(isDayTrade) || InDayWindow(slice.begin, dayTradeBegin, dayTradeEnd)
    {
      var db := dayTradeBegin * SecondsPerHour;
      var de := dayTradeEnd * SecondsPerHour;
      var sb := slice.begin;
      if sb > db && sb < de {
        isDayTrade := true;
      }
    }

    function View(): SessionSlice
      reads this
    {
      SessionSlice(slice, isDayTrade)
    }
  }

  /** The host slices that a list of tagged slices wraps (these never change). */
  function Slices(s: seq<TimeSliceEx>): seq<TimeSlice>
  {
    seq(|s|, i requires 0 <= i < |s| => s[i].slice)
  }

  /** The current snapshots of a list of tagged slices. */
  function Views(s: seq<TimeSliceEx>): seq<SessionSlice>
    reads s
  {
    seq(|s|, i requires 0 <= i < |s| reads s => s[i].View())
  }

  /** Wraps each host slice, in order, into a fresh tagged slice left as night. */
  method CreateSlices(slices: seq<TimeSlice>) returns (r: seq<TimeSliceEx>)
    ensures Slices(r) == slices
    ensures forall x :: x in r ==> fresh(x) && !x.isDayTrade
    ensures forall i, j :: 0 <= i < j < |r| ==> r[i] != r[j]
  {
    r := [];
    for i := 0 to |slices|
      invariant Slices(r) == slices[..i]
      invariant forall x :: x in r ==> fresh(x) && !x.isDayTrade
      invariant forall j, k :: 0 <= j < k < |r| ==> r[j] != r[k]
    {
      var se := new TimeSliceEx(slices[i]);
      r := r + [se];
    }
  }

  /** Wraps each host slice, in order, into a fresh tagged slice classified against the window. */
  method CreateSlicesInWindow(slices: seq<TimeSlice>, dayTradeBegin: int, dayTradeEnd: int)
    returns (r: seq<TimeSliceEx>)
    ensures Slices(r) == slices
    ensures forall x :: x in r ==> fresh(x)
    ensures forall i, j :: 0 <= i < j < |r| ==> r[i] != r[j]
    ensures forall i :: 0 <= i < |r| ==>
      (r[i].isDayTrade <==> InDayWindow(slices[i].begin, dayTradeBegin, dayTradeEnd))
  {
    r := [];
    for i := 0 to |slices|
      invariant Slices(r) == slices[..i]
      invariant forall x :: x in r ==> fresh(x)
      invariant forall j, k :: 0 <= j < k < |r| ==> r[j] != r[k]
      invariant forall j :: 0 <= j < |r| ==>
        (r[j].isDayTrade <==> InDayWindow(slices[j].begin, dayTradeBegin, dayTradeEnd))
    {
      var se := new TimeSliceEx(slices[i]);
      se.UpdateTradeType(dayTradeBegin, dayTradeEnd);
      r := r + [se];
    }
  }

  /** The day-break the comparer uses unless told otherwise: 06:00. */
  const DefaultDayBreak := 6 * SecondsPerHour

  /** The result of `double.CompareTo`: the sign of a difference. */
  function Sign(d: int): (c: int)
    ensures c < 0 <==> d < 0
    ensures c == 0 <==> d == 0
    ensures c > 0 <==> d > 0
    ensures -1 <= c <= 1
  {
    if d < 0 then -1 else if d == 0 then 0 else 1
  }

  /**
   * Orders tagged slices: day slices by begin; night slices by begin, where a
   * begin before the day-break counts as the next calendar day; and, for a
   * night and a day slice, by comparing the negated night begin with the day begin.
   */
  datatype TimeSliceComparer = TimeSliceComparer(dayBreak: int) {

    /** The begin of a night slice, moved by one day when it falls before the day-break. */
    function Wrap(begin: int): int
    {
      if begin < dayBreak then begin + SecondsPerDay else begin
    }

    function Compare(x: SessionSlice, y: SessionSlice): (c: int)
      ensures -1 <= c <= 1
      ensures x.isDayTrade == y.isDayTrade ==> (c == 0 <==> Key(x) == Key(y))
      ensures WellFormed(x) && WellFormed(y) && x.isDayTrade != y.isDayTrade ==> (c < 0 <==> !x.isDayTrade)
    {
      var tx := x.slice.begin;
      var ty := y.slice.begin;
      if x.isDayTrade && y.isDayTrade then Sign(tx - ty)
      else if !x.isDayTrade && !y.isDayTrade then Sign(Wrap(tx) - Wrap(ty))
      else
        var mx := if x.isDayTrade then tx else -tx;
        var my := if y.isDayTrade then ty else -ty;
        Sign(mx - my)
    }

    /** The sort key the comparer agrees with on well-formed slices: session first, then wrapped begin. */
    function Key(x: SessionSlice): (int, int)
    {
      if x.isDayTrade then (1, x.slice.begin) else (0, Wrap(x.slice.begin))
    }
  }

  /** Lexicographic comparison of sort keys, as -1, 0 or 1. */
  function CompareKeys(a: (int, int), b: (int, int)): int
  {
    if a.0 != b.0 then Sign(a.0 - b.0) else Sign(a.1 - b.1)
  }

  /** Begins are non-negative and a day slice does not begin at midnight (true of every
      slice classified against a window that opens at or after midnight). */
  predicate WellFormed(x: SessionSlice)
  {
    x.slice.begin >= 0 && (x.isDayTrade ==> x.slice.begin > 0)
  }

  /** On well-formed slices the comparer is the lexicographic order of (night ? 0 : 1, wrapped begin). */
  lemma CompareIsKeyOrder(cmp: TimeSliceComparer, x: SessionSlice, y: SessionSlice)
    requires WellFormed(x) && WellFormed(y)
    ensures cmp.Compare(x, y) == CompareKeys(cmp.Key(x), cmp.Key(y))
  {
  }

  /** The comparer is reflexive and antisymmetric on all slices. */
  lemma CompareReflexiveAntisymmetric(cmp: TimeSliceComparer, x: SessionSlice, y: SessionSlice)
    ensures cmp.Compare(x, x) == 0
    ensures cmp.Compare(x, y) == -cmp.Compare(y, x)
  {
  }

  /** The comparer is transitive on well-formed slices, so it is a valid sort order. */
  lemma CompareTransitive(cmp: TimeSliceComparer, x: SessionSlice, y: SessionSlice, z: SessionSlice)
    requires WellFormed(x) && WellFormed(y) && WellFormed(z)
    requires cmp.Compare(x, y) <= 0 && cmp.Compare(y, z) <= 0
    ensures cmp.Compare(x, z) <= 0
  {
    CompareIsKeyOrder(cmp, x, y);
    CompareIsKeyOrder(cmp, y, z);
    CompareIsKeyOrder(cmp, x, z);
  }

  /** A night slice precedes a day slice that begins after midnight. */
  lemma NightPrecedesDay(cmp: TimeSliceComparer, x: SessionSlice, y: SessionSlice)
    requires !x.isDayTrade && y.isDayTrade
    requires x.slice.begin >= 0 && y.slice.begin > 0
    ensures cmp.Compare(x, y) < 0 && cmp.Compare(y, x) > 0
  {
  }

  /** Between two night slices, one that begins before the day-break (after midnight)
      comes after one that begins at or after the day-break on the previous evening. */
  lemma NightWrapsPastMidnight(cmp: TimeSliceComparer, x: SessionSlice, y: SessionSlice)
    requires !x.isDayTrade && !y.isDayTrade
    requires x.slice.begin < cmp.dayBreak <= y.slice.begin < x.slice.begin + SecondsPerDay
    ensures cmp.Compare(x, y) > 0 && cmp.Compare(y, x) < 0
  {
  }

  /** With the default day-break, a night slice at 00:30 sorts after one at 21:00. */
  lemma HalfPastMidnightAfterNine(cmp: TimeSliceComparer)
    requires cmp.dayBreak == DefaultDayBreak
    ensures cmp.Compare(SessionSlice(TimeSlice(1800, 9000), false), SessionSlice(TimeSlice(75600, 82800), false)) > 0
  {
    NightWrapsPastMidnight(cmp, SessionSlice(TimeSlice(1800, 9000), false), SessionSlice(TimeSlice(75600, 82800), false));
  }

  /** Every pair of positions is in comparer order. */
  ghost predicate SortedBy(cmp: TimeSliceComparer, vs: seq<SessionSlice>)
  {
    forall i, j :: 0 <= i < j < |vs| ==> cmp.Compare(vs[i], vs[j]) <= 0
  }

  /** Inserting a slice before the first element that compares greater keeps a sorted list sorted. */
  lemma {:induction false} InsertKeepsSorted(cmp: TimeSliceComparer, vs: seq<SessionSlice>, k: nat, v: SessionSlice)
    requires k <= |vs| && SortedBy(cmp, vs)
    requires WellFormed(v) && forall u :: u in vs ==> WellFormed(u)
    requires forall j :: 0 <= j < k ==> cmp.Compare(vs[j], v) <= 0
    requires k < |vs| ==> cmp.Compare(vs[k], v) > 0
    ensures SortedBy(cmp, vs[..k] + [v] + vs[k..])
  {
    var ws := vs[..k] + [v] + vs[k..];
    forall i, j | 0 <= i < j < |ws|
      ensures cmp.Compare(ws[i], ws[j]) <= 0
    {
      if j < k || i > k {
      } else if i == k {
        CompareReflexiveAntisymmetric(cmp, vs[k], v);
        if j - 1 > k {
          CompareTransitive(cmp, v, vs[k], vs[j - 1]);
        }
      } else if j > k {
        assert ws[i] == vs[i] && ws[j] == vs[j - 1];
        CompareReflexiveAntisymmetric(cmp, vs[k], v);
        CompareTransitive(cmp, vs[i], v, vs[k]);
        if j - 1 > k {
          CompareTransitive(cmp, vs[i], vs[k], vs[j - 1]);
        }
      }
    }
  }

  /** Splicing an element into a list splices its snapshot and its host slice into theirs. */
  lemma SpliceCommutes(r: seq<TimeSliceEx>, k: nat, x: TimeSliceEx)
    requires k <= |r|
    ensures Views(r[..k] + [x] + r[k..]) == Views(r)[..k] + [x.View()] + Views(r)[k..]
    ensures Slices(r[..k] + [x] + r[k..]) == Slices(r)[..k] + [x.slice] + Slices(r)[k..]
    ensures multiset(r[..k] + [x] + r[k..]) == multiset(r) + multiset{x}
    ensures multiset(Slices(r[..k] + [x] + r[k..])) == multiset(Slices(r)) + multiset{x.slice}
  {
    assert r == r[..k] + r[k..];
    assert Slices(r) == Slices(r)[..k] + Slices(r)[k..];
  }

  /** Inserts one tagged slice into a sorted list, before the first element that compares greater. */
  method InsertSorted(r: seq<TimeSliceEx>, x: TimeSliceEx, cmp: TimeSliceComparer) returns (r': seq<TimeSliceEx>)
    requires SortedBy(cmp, Views(r))
    requires WellFormed(x.View()) && forall y :: y in r ==> WellFormed(y.View())
    ensures multiset(r') == multiset(r) + multiset{x}
    ensures multiset(Slices(r')) == multiset(Slices(r)) + multiset{x.slice}
    ensures SortedBy(cmp, Views(r'))
  {
    var k := 0;
    while k < |r| && cmp.Compare(r[k].View(), x.View()) <= 0
      invariant 0 <= k <= |r|
      invariant forall j :: 0 <= j < k ==> cmp.Compare(r[j].View(), x.View()) <= 0
    {
      k := k + 1;
    }
    forall u | u in Views(r) ensures WellFormed(u) {
      var j :| 0 <= j < |r| && Views(r)[j] == u;
      assert r[j] in r;
    }
    InsertKeepsSorted(cmp, Views(r), k, x.View());
    SpliceCommutes(r, k, x);
    r' := r[..k] + [x] + r[k..];
  }

  /**
   * Sorts tagged slices by the comparer (stands in for the runtime's list sort;
   * only sortedness and permutation are claimed, not stability).
   */
  method SortByComparer(s: seq<TimeSliceEx>, cmp: TimeSliceComparer) returns (r: seq<TimeSliceEx>)
    requires forall x :: x in s ==> WellFormed(x.View())
    ensures multiset(r) == multiset(s)
    ensures multiset(Slices(r)) == multiset(Slices(s))
    ensures SortedBy(cmp, Views(r))
  {
    r := [];
    for i := 0 to |s|
      invariant multiset(r) == multiset(s[..i])
      invariant multiset(Slices(r)) == multiset(Slices(s[..i]))
      invariant forall y :: y in r ==> WellFormed(y.View())
      invariant SortedBy(cmp, Views(r))
    {
      r := InsertSorted(r, s[i], cmp);
      assert s[..i + 1] == s[..i] + [s[i]];
      assert Slices(s[..i + 1]) == Slices(s[..i]) + [s[i].slice];
      forall y | y in r ensures WellFormed(y.View()) {
        assert y in multiset(r);
      }
    }
    assert s[..|s|] == s;
  }

  /** In a sorted list of well-formed slices every night slice comes before every day slice. */
  lemma SortedPutsNightFirst(cmp: TimeSliceComparer, vs: seq<SessionSlice>, i: nat, j: nat)
    requires SortedBy(cmp, vs) && forall u :: u in vs ==> WellFormed(u)
    requires i < |vs| && j < |vs|
    requires !vs[i].isDayTrade && vs[j].isDayTrade
    ensures i < j
  {
    assert vs[i] in vs && vs[j] in vs;
  }
}
