/** `Array.sorted(by:)` on lift entries keyed by date, the one sort both
    screens use: newest first in Mettle/Utilities.swift, oldest first in
    Mettle/HomeView.swift. */
module DateSort {
  import opened LiftEntries

  /** The strict comparator passed to `sorted(by:)`: `$0.date > $1.date`
      when `newestFirst`, `$0.date < $1.date` otherwise. */
  predicate InIncreasingOrder(x: LiftEntry, y: LiftEntry, newestFirst: bool)
  {
    if newestFirst then x.date > y.date else x.date < y.date
  }

  /** No element is preceded by one the comparator puts after it. */
  ghost predicate SortedBy(s: seq<LiftEntry>, newestFirst: bool)
  {
    forall i, j :: 0 <= i < j < |s| ==> !InIncreasingOrder(s[j], s[i], newestFirst)
  }

  /** Insert `e` before the first element that does not strictly precede it. */
  function Insert(e: LiftEntry, s: seq<LiftEntry>, newestFirst: bool): (r: seq<LiftEntry>)
    requires SortedBy(s, newestFirst)
    ensures SortedBy(r, newestFirst)
    ensures multiset(r) == multiset(s) + multiset{e}
  {
    if s == [] || !InIncreasingOrder(s[0], e, newestFirst) then
      [e] + s
    else
      assert multiset(s) == multiset{s[0]} + multiset(s[1..]) by { assert s == [s[0]] + s[1..]; }
      var rest := Insert(e, s[1..], newestFirst);
      assert forall k :: 0 <= k < |rest| ==> !InIncreasingOrder(rest[k], s[0], newestFirst) by {
        forall k | 0 <= k < |rest|
          ensures !InIncreasingOrder(rest[k], s[0], newestFirst)
        {
          assert rest[k] in multiset(rest);
          assert rest[k] == e || rest[k] in s[1..];
        }
      }
      [s[0]] + rest
  }

  /** An insertion sort: the result is ordered and holds the same entries. */
  function SortByDate(s: seq<LiftEntry>, newestFirst: bool): (r: seq<LiftEntry>)
    ensures SortedBy(r, newestFirst)
    ensures multiset(r) == multiset(s)
  {
    if s == [] then []
    else
      assert multiset(s) == multiset{s[0]} + multiset(s[1..]) by { assert s == [s[0]] + s[1..]; }
      Insert(s[0], SortByDate(s[1..], newestFirst), newestFirst)
  }
}
