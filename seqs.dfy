/** Searches over sequences that the source writes as `foreach` loops. */
module Seqs {
  import opened Wrappers

  /** The index of the first element of `s` that satisfies `p`, if there is one. */
  function FirstIndex<T>(s: seq<T>, p: T -> bool): (r: Option<nat>)
    ensures r.Some? ==> r.value < |s| && p(s[r.value])
    ensures r.Some? ==> forall j :: 0 <= j < r.value ==> !p(s[j])
    ensures r.None? <==> forall j :: 0 <= j < |s| ==> !p(s[j])
    decreases |s|
  {
    if s == [] then None
    else if p(s[0]) then Some(0)
    else match FirstIndex(s[1..], p)
      case None => None
      case Some(k) => Some(k + 1)
  }

  /** The index of the last element of `s` that satisfies `p`, if there is one. */
  function LastIndex<T>(s: seq<T>, p: T -> bool): (r: Option<nat>)
    ensures r.Some? ==> r.value < |s| && p(s[r.value])
    ensures r.Some? ==> forall j :: r.value < j < |s| ==> !p(s[j])
    ensures r.None? <==> forall j :: 0 <= j < |s| ==> !p(s[j])
    decreases |s|
  {
    if s == [] then None
    else if p(s[|s| - 1]) then Some(|s| - 1)
    else LastIndex(s[..|s| - 1], p)
  }

  /** Extending a sequence by one element moves the last match to that
      element when it matches, and leaves it where it was otherwise. */
  lemma {:induction false} LastIndexSnoc<T>(s: seq<T>, x: T, p: T -> bool)
    ensures LastIndex(s + [x], p) == if p(x) then Some(|s|) else LastIndex(s, p)
  {
    assert (s + [x])[..|s|] == s;
  }
}
