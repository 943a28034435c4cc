/** Which automatic snapshots retention keeps: the `keep` newest, and the newest
  * of each of the `keep` most recent days. File times may repeat, and the
  * directory may list its files in any order each time. */
module Retention {
  import opened Common
  import StableSort

  datatype Snapshot = Snapshot(id: string, mtime: int)

  const NANOSECONDS_PER_DAY := 86400000000000

  function Day(s: Snapshot): int {
    s.mtime / NANOSECONDS_PER_DAY
  }

  // sorted(..., key=mtime, reverse=True)

  predicate NewestFirst(s: seq<Snapshot>) {
    forall i, j :: 0 <= i <= j < |s| ==> s[i].mtime >= s[j].mtime
  }

  function Recency(s: Snapshot): real {
    s.mtime as real
  }

  function SortNewestFirst(listing: seq<Snapshot>): seq<Snapshot> {
    StableSort.Sort(listing, Recency)
  }

  lemma SortSorts(listing: seq<Snapshot>)
    ensures NewestFirst(SortNewestFirst(listing)) && multiset(SortNewestFirst(listing)) == multiset(listing)
  {
    StableSort.SortSorts(listing, Recency);
    var sorted := SortNewestFirst(listing);
    forall i, j | 0 <= i <= j < |sorted|
      ensures sorted[i].mtime >= sorted[j].mtime
    {
      assert Recency(sorted[i]) >= Recency(sorted[j]);
    }
  }

  // The rule

  function Days(s: seq<Snapshot>): set<int> {
    set x | x in s :: Day(x)
  }

  function Elements(s: seq<Snapshot>): set<Snapshot> {
    set x | x in s
  }

  predicate FirstOfDay(sorted: seq<Snapshot>, i: nat)
    requires i < |sorted|
  {
    Day(sorted[i]) !in Days(sorted[..i])
  }

  /** Kept: among the `keep` newest, or the newest of its day with fewer than `keep` later days. */
  predicate Keeps(sorted: seq<Snapshot>, keep: nat, i: nat)
    requires i < |sorted|
  {
    i < keep || (FirstOfDay(sorted, i) && |Days(sorted[..i])| < keep)
  }

  function Kept(sorted: seq<Snapshot>, keep: nat): set<Snapshot> {
    set i | 0 <= i < |sorted| && Keeps(sorted, keep, i) :: sorted[i]
  }

  /** The snapshots to delete, in the order they are deleted. */
  function Doomed(sorted: seq<Snapshot>, kept: set<Snapshot>): seq<Snapshot>
    decreases |sorted|
  {
    if sorted == [] then []
    else
      var n := |sorted| - 1;
      Doomed(sorted[..n], kept) + (if sorted[n] in kept then [] else [sorted[n]])
  }

  // The loops

  /** The `keep` latest of some days. */
  function LatestDays(days: set<int>, keep: nat): set<int> {
    set d | d in days && |Later(days, d)| < keep
  }

  function Later(days: set<int>, d: int): set<int> {
    set e | e in days && e > d
  }

  /** Before the newest snapshot of a day come exactly the snapshots of later days. */
  lemma LaterDaysAreEarlier(sorted: seq<Snapshot>, i: nat)
    requires NewestFirst(sorted) && i < |sorted| && FirstOfDay(sorted, i)
    ensures Later(Days(sorted), Day(sorted[i])) == Days(sorted[..i])
  {
    forall x | x in sorted[..i]
      ensures Day(x) > Day(sorted[i]) && x in sorted
    {
      var j :| 0 <= j < i && sorted[..i][j] == x;
      assert sorted[j] == x && x.mtime >= sorted[i].mtime;
      assert Day(x) in Days(sorted[..i]);
    }
    forall x | x in sorted && Day(x) > Day(sorted[i])
      ensures x in sorted[..i]
    {
      var j :| 0 <= j < |sorted| && sorted[j] == x;
      assert j < i;
      assert sorted[..i][j] == x;
    }
  }

  // Where each day's newest snapshot is: the first hit per day wins
  method NewestPerDay(candidates: seq<Snapshot>) returns (newestPerDay: map<int, nat>)
    ensures IsNewestPerDay(candidates, newestPerDay)
  {
    newestPerDay := map[];
    for i := 0 to |candidates|
      invariant IsNewestPerDay(candidates[..i], newestPerDay)
    {
      assert candidates[..i + 1] == candidates[..i] + [candidates[i]];
      DaysSnoc(candidates[..i], candidates[i]);
      forall k: nat | k < i
        ensures candidates[..i + 1][..k] == candidates[..i][..k]
      {
      }
      var day := Day(candidates[i]);
      if day !in newestPerDay {
        newestPerDay := newestPerDay[day := i];
      }
    }
    assert candidates[..|candidates|] == candidates;
  }

  ghost predicate IsNewestPerDay(sorted: seq<Snapshot>, newestPerDay: map<int, nat>) {
    && newestPerDay.Keys == Days(sorted)
    && (forall d :: d in newestPerDay ==>
          newestPerDay[d] < |sorted| && Day(sorted[newestPerDay[d]]) == d && FirstOfDay(sorted, newestPerDay[d]))
  }

  function Chosen(sorted: seq<Snapshot>, newestPerDay: map<int, nat>, days: set<int>): set<Snapshot>
    requires forall d :: d in days ==> d in newestPerDay && newestPerDay[d] < |sorted|
  {
    set d | d in days :: sorted[newestPerDay[d]]
  }

  method AnyOf<T(==)>(s: set<T>) returns (x: T)
    requires s != {}
    ensures x in s
  {
    x :| x in s;
  }

  method AddChosen(candidates: seq<Snapshot>, newestPerDay: map<int, nat>, days: set<int>, newest: set<Snapshot>)
    returns (keepSet: set<Snapshot>)
    requires forall d :: d in days ==> d in newestPerDay && newestPerDay[d] < |candidates|
    ensures keepSet == newest + Chosen(candidates, newestPerDay, days)
  {
    keepSet := newest;
    var left := days;
    while left != {}
      invariant left <= days && keepSet == newest + Chosen(candidates, newestPerDay, days - left)
      decreases |left|
    {
      var day := AnyOf(left);
      left := left - {day};
      keepSet := keepSet + {candidates[newestPerDay[day]]};
    }
    assert days - left == days;
  }

  method DeleteOthers(candidates: seq<Snapshot>, keepSet: set<Snapshot>) returns (doomed: seq<Snapshot>)
    ensures doomed == Doomed(candidates, keepSet)
  {
    doomed := [];
    for i := 0 to |candidates|
      invariant doomed == Doomed(candidates[..i], keepSet)
    {
      assert candidates[..i + 1][..i] == candidates[..i];
      if candidates[i] in keepSet {
        continue;
      }
      doomed := doomed + [candidates[i]];
    }
    assert candidates[..|candidates|] == candidates;
  }

  /** `_retention_prune`: sort, collect the two keep sets, and delete the rest. */
  method RetentionPrune(listing: seq<Snapshot>, keep: nat) returns (doomed: seq<Snapshot>)
    ensures doomed == Doomed(SortNewestFirst(listing), Kept(SortNewestFirst(listing), keep))
  {
    var candidates := SortNewestFirst(listing);
    SortSorts(listing);
    var newestPerDay := NewestPerDay(candidates);
    var days := LatestDays(newestPerDay.Keys, keep);
    var keepSet := AddChosen(candidates, newestPerDay, days, Elements(Take(candidates, keep)));
    KeepSetIsKept(candidates, keep, newestPerDay);
    doomed := DeleteOthers(candidates, keepSet);
  }

  lemma KeepSetIsKept(sorted: seq<Snapshot>, keep: nat, newestPerDay: map<int, nat>)
    requires NewestFirst(sorted) && IsNewestPerDay(sorted, newestPerDay)
    ensures Elements(Take(sorted, keep)) + Chosen(sorted, newestPerDay, LatestDays(newestPerDay.Keys, keep))
         == Kept(sorted, keep)
  {
    var keepSet := Elements(Take(sorted, keep)) + Chosen(sorted, newestPerDay, LatestDays(newestPerDay.Keys, keep));
    forall i | 0 <= i < |sorted| && Keeps(sorted, keep, i)
      ensures sorted[i] in keepSet
    {
      if i < keep {
        assert Take(sorted, keep)[i] == sorted[i];
      } else {
        var d := Day(sorted[i]);
        LaterDaysAreEarlier(sorted, i);
        FirstIsUnique(sorted, i, newestPerDay[d]);
        assert d in LatestDays(newestPerDay.Keys, keep);
      }
    }
    forall x | x in keepSet
      ensures x in Kept(sorted, keep)
    {
      if x in Take(sorted, keep) {
        var i :| 0 <= i < |sorted| && i < keep && sorted[i] == x;
        assert Keeps(sorted, keep, i);
      } else {
        var d :| d in LatestDays(newestPerDay.Keys, keep) && sorted[newestPerDay[d]] == x;
        LaterDaysAreEarlier(sorted, newestPerDay[d]);
        assert Keeps(sorted, keep, newestPerDay[d]);
      }
    }
  }

  lemma LaterIsNotFirst(sorted: seq<Snapshot>, i: nat, j: nat)
    requires i < j < |sorted| && Day(sorted[i]) == Day(sorted[j])
    ensures !FirstOfDay(sorted, j)
  {
    assert sorted[..j][i] == sorted[i];
  }

  lemma NoneBefore(sorted: seq<Snapshot>, i: nat)
    requires i < |sorted| && FirstOfDay(sorted, i)
    ensures forall j :: 0 <= j < i ==> Day(sorted[j]) != Day(sorted[i])
  {
    forall j | 0 <= j < i
      ensures Day(sorted[j]) in Days(sorted[..i])
    {
      assert sorted[..i][j] == sorted[j];
    }
  }

  lemma FirstIsUnique(sorted: seq<Snapshot>, i: nat, j: nat)
    requires i < |sorted| && j < |sorted| && FirstOfDay(sorted, i) && FirstOfDay(sorted, j)
    requires Day(sorted[i]) == Day(sorted[j])
    ensures i == j
  {
    if i < j {
      LaterIsNotFirst(sorted, i, j);
    } else if j < i {
      LaterIsNotFirst(sorted, j, i);
    }
  }

  // How many are kept

  function FirstsKept(sorted: seq<Snapshot>, keep: nat): set<Snapshot> {
    set i | 0 <= i < |sorted| && FirstOfDay(sorted, i) && |Days(sorted[..i])| < keep :: sorted[i]
  }

  lemma FirstsKeptSnoc(earlier: seq<Snapshot>, x: Snapshot, keep: nat)
    ensures FirstsKept(earlier + [x], keep)
         <= FirstsKept(earlier, keep) + (if Day(x) !in Days(earlier) && |Days(earlier)| < keep then {x} else {})
  {
    var sorted := earlier + [x];
    forall i | 0 <= i < |sorted| && FirstOfDay(sorted, i) && |Days(sorted[..i])| < keep
      ensures sorted[i] in FirstsKept(earlier, keep) || (i == |earlier| && Day(x) !in Days(earlier) && |Days(earlier)| < keep)
    {
      if i < |earlier| {
        assert sorted[..i] == earlier[..i];
        assert FirstOfDay(earlier, i);
      } else {
        assert sorted[..i] == earlier;
      }
    }
  }

  lemma {:induction false} FirstsKeptSize(sorted: seq<Snapshot>, keep: nat)
    ensures |FirstsKept(sorted, keep)| <= keep && |FirstsKept(sorted, keep)| <= |Days(sorted)|
    decreases |sorted|
  {
    if sorted != [] {
      var n := |sorted| - 1;
      var earlier, x := sorted[..n], sorted[n];
      assert sorted == earlier + [x];
      FirstsKeptSize(earlier, keep);
      FirstsKeptSnoc(earlier, x, keep);
      DaysSnoc(earlier, x);
      var more := if Day(x) !in Days(earlier) && |Days(earlier)| < keep then {x} else {};
      SubsetSize(FirstsKept(sorted, keep), FirstsKept(earlier, keep) + more);
      SubsetSize(Days(earlier), Days(sorted));
    }
  }

  lemma DaysSnoc(s: seq<Snapshot>, x: Snapshot)
    ensures Days(s + [x]) == Days(s) + {Day(x)}
  {
  }

  lemma {:induction false} ElementsSize(s: seq<Snapshot>)
    ensures |Elements(s)| <= |s|
    ensures Distinct(s) ==> |Elements(s)| == |s|
    decreases |s|
  {
    if s != [] {
      var n := |s| - 1;
      ElementsSize(s[..n]);
      assert s == s[..n] + [s[n]];
      assert Elements(s) == Elements(s[..n]) + {s[n]};
    }
  }

  /** The `keep` newest and the newest of the `keep` most recent days: at most twice `keep` in all. */
  lemma KeptBounds(sorted: seq<Snapshot>, keep: nat)
    ensures |Kept(sorted, keep)| <= 2 * keep
    ensures forall i :: 0 <= i < |sorted| && i < keep ==> sorted[i] in Kept(sorted, keep)
  {
    var newest := Take(sorted, keep);
    assert Kept(sorted, keep) <= Elements(newest) + FirstsKept(sorted, keep);
    ElementsSize(newest);
    FirstsKeptSize(sorted, keep);
    SubsetSize(Kept(sorted, keep), Elements(newest) + FirstsKept(sorted, keep));
    forall i | 0 <= i < |sorted| && i < keep
      ensures sorted[i] in Kept(sorted, keep)
    {
      assert Keeps(sorted, keep, i);
    }
  }

  predicate IsNewestOf(s: seq<Snapshot>, day: int, newest: Snapshot) {
    newest in s && Day(newest) == day && forall x :: x in s && Day(x) == day ==> x.mtime <= newest.mtime
  }

  /** In terms of the clock: the newest snapshot of any of the `keep` latest days survives. */
  lemma NewestOfRecentDayIsKept(sorted: seq<Snapshot>, keep: nat, day: int)
    requires NewestFirst(sorted) && day in LatestDays(Days(sorted), keep)
    ensures exists newest :: newest in Kept(sorted, keep) && IsNewestOf(sorted, day, newest)
  {
    var i := FirstWith(sorted, day);
    NoneBefore(sorted, i);
    assert sorted[i] in Kept(sorted, keep) by {
      LaterDaysAreEarlier(sorted, i);
      assert Keeps(sorted, keep, i);
    }
    forall x | x in sorted && Day(x) == day
      ensures x.mtime <= sorted[i].mtime
    {
      var j :| 0 <= j < |sorted| && sorted[j] == x;
      assert i <= j;
    }
    assert IsNewestOf(sorted, day, sorted[i]);
  }

  lemma {:induction false} FirstWith(sorted: seq<Snapshot>, day: int) returns (i: nat)
    requires day in Days(sorted)
    ensures i < |sorted| && Day(sorted[i]) == day && FirstOfDay(sorted, i)
    decreases |sorted|
  {
    var n := |sorted| - 1;
    assert sorted == sorted[..n] + [sorted[n]];
    DaysSnoc(sorted[..n], sorted[n]);
    if day in Days(sorted[..n]) {
      i := FirstWith(sorted[..n], day);
      assert sorted[..n][..i] == sorted[..i];
    } else {
      i := n;
    }
  }

  // Pruning what pruning left

  lemma {:induction false} DoomedAreTheRest(sorted: seq<Snapshot>, kept: set<Snapshot>)
    ensures forall x :: x in Doomed(sorted, kept) <==> x in sorted && x !in kept
    decreases |sorted|
  {
    if sorted != [] {
      var n := |sorted| - 1;
      DoomedAreTheRest(sorted[..n], kept);
      assert sorted == sorted[..n] + [sorted[n]];
    }
  }

  /** The survivors of one pruning, listed again in whatever order, are all kept by the next. */
  lemma SurvivorIsKeptAgain(sorted: seq<Snapshot>, again: seq<Snapshot>, keep: nat, i: nat)
    requires NewestFirst(sorted) && Distinct(sorted) && NewestFirst(again) && Distinct(again)
    requires forall x :: x in again <==> x in Kept(sorted, keep)
    requires i < |again|
    ensures Keeps(again, keep, i)
  {
    var e := again[i];
    assert e in again;
    var p :| 0 <= p < |sorted| && Keeps(sorted, keep, p) && sorted[p] == e;
    if p < keep {
      NewestStaysNewest(sorted, again, keep, i, p);
    } else {
      forall f | f in again[..i]
        ensures f in sorted[..p]
      {
        BeforeAFirst(sorted, again, keep, i, p, f);
      }
      forall d | d in Days(again[..i])
        ensures d in Days(sorted[..p])
      {
        var f :| f in again[..i] && Day(f) == d;
        assert f in sorted[..p];
      }
      SubsetSize(Days(again[..i]), Days(sorted[..p]));
    }
  }

  // Whatever precedes one of the `keep` newest in the new listing is itself one of them
  lemma NewestStaysNewest(sorted: seq<Snapshot>, again: seq<Snapshot>, keep: nat, i: nat, p: nat)
    requires NewestFirst(sorted) && Distinct(sorted) && NewestFirst(again) && Distinct(again)
    requires forall x :: x in again <==> x in Kept(sorted, keep)
    requires i < |again| && p < |sorted| && p < keep && sorted[p] == again[i]
    ensures i < keep
  {
    var newest := Take(sorted, keep);
    forall f | f in again[..i]
      ensures f in newest && f != again[i]
    {
      var j :| 0 <= j < i && again[..i][j] == f;
      assert again[j] == f && f in again;
      var q :| 0 <= q < |sorted| && Keeps(sorted, keep, q) && sorted[q] == f;
      assert sorted[q].mtime >= sorted[p].mtime;
      if q >= keep {
        NoneBefore(sorted, q);
      }
      assert q < keep;
      assert newest[q] == f;
    }
    ElementsSize(again[..i]);
    ElementsSize(newest);
    assert again[i] == newest[p];
    assert Elements(again[..i]) <= Elements(newest) - {again[i]};
    SubsetSize(Elements(again[..i]), Elements(newest) - {again[i]});
    assert Distinct(again[..i]);
  }

  // Whatever precedes a day's newest in the new listing preceded it in the old
  lemma BeforeAFirst(sorted: seq<Snapshot>, again: seq<Snapshot>, keep: nat, i: nat, p: nat, f: Snapshot)
    requires NewestFirst(sorted) && Distinct(sorted) && NewestFirst(again) && Distinct(again)
    requires forall x :: x in again <==> x in Kept(sorted, keep)
    requires i < |again| && keep <= p < |sorted| && sorted[p] == again[i] && FirstOfDay(sorted, p)
    requires f in again[..i]
    ensures f in sorted[..p]
  {
    var j :| 0 <= j < i && again[..i][j] == f;
    assert again[j] == f && f in again;
    var q :| 0 <= q < |sorted| && Keeps(sorted, keep, q) && sorted[q] == f;
    assert sorted[q].mtime >= sorted[p].mtime;
    if q >= keep {
      NoneBefore(sorted, q);
    }
    assert q < p;
    assert sorted[..p][q] == f;
  }

  lemma SurvivorsAreKept(sorted: seq<Snapshot>, again: seq<Snapshot>, keep: nat)
    requires NewestFirst(sorted) && Distinct(sorted) && NewestFirst(again) && Distinct(again)
    requires forall x :: x in again <==> x in Kept(sorted, keep)
    ensures Doomed(again, Kept(again, keep)) == []
  {
    forall x | x in again
      ensures x in Kept(again, keep)
    {
      var i :| 0 <= i < |again| && again[i] == x;
      SurvivorIsKeptAgain(sorted, again, keep, i);
    }
    NoneDoomed(again, Kept(again, keep));
  }

  /** Pruning again removes nothing, whatever order the directory lists its files in and whether or not
    * their times are distinct. */
  lemma PruneIsIdempotent(listing: seq<Snapshot>, again: seq<Snapshot>, keep: nat)
    requires Distinct(listing) && Distinct(again)
    requires forall x :: x in again <==>
      x in listing && x !in Doomed(SortNewestFirst(listing), Kept(SortNewestFirst(listing), keep))
    ensures Doomed(SortNewestFirst(again), Kept(SortNewestFirst(again), keep)) == []
  {
    var first, second := SortNewestFirst(listing), SortNewestFirst(again);
    SortSorts(listing);
    SortSorts(again);
    SameElements(first, listing);
    SameElements(second, again);
    DoomedAreTheRest(first, Kept(first, keep));
    assert forall x :: x in Kept(first, keep) ==> x in first;
    SurvivorsAreKept(first, second, keep);
  }

  lemma {:induction false} NoneDoomed(sorted: seq<Snapshot>, kept: set<Snapshot>)
    requires forall x :: x in sorted ==> x in kept
    ensures Doomed(sorted, kept) == []
    decreases |sorted|
  {
    if sorted != [] {
      NoneDoomed(sorted[..|sorted| - 1], kept);
    }
  }

  lemma SameElements(s: seq<Snapshot>, t: seq<Snapshot>)
    requires multiset(s) == multiset(t)
    ensures forall x :: x in s <==> x in t
    ensures Distinct(t) ==> Distinct(s)
  {
    assert forall x :: x in s <==> x in multiset(s);
    assert forall x :: x in t <==> x in multiset(t);
    ElementsSize(s);
    ElementsSize(t);
    assert Elements(s) == Elements(t);
    assert |s| == |multiset(s)| == |t|;
    if Distinct(t) {
      FullSizeIsDistinct(s);
    }
  }

  lemma {:induction false} FullSizeIsDistinct(s: seq<Snapshot>)
    requires |Elements(s)| == |s|
    ensures Distinct(s)
    decreases |s|
  {
    if s != [] {
      var n := |s| - 1;
      assert s == s[..n] + [s[n]];
      assert Elements(s) == Elements(s[..n]) + {s[n]};
      ElementsSize(s[..n]);
      FullSizeIsDistinct(s[..n]);
      assert s[n] !in s[..n];
    }
  }

  /** What pruning deletes was listed and is not kept; what it keeps was listed. */
  lemma DoomedWereListed(listing: seq<Snapshot>, keep: nat) returns (doomed: seq<Snapshot>, kept: set<Snapshot>)
    ensures kept == Kept(SortNewestFirst(listing), keep) && doomed == Doomed(SortNewestFirst(listing), kept)
    ensures forall x :: x in doomed ==> x in listing && x !in kept
    ensures forall x :: x in kept ==> x in listing
  {
    var sorted := SortNewestFirst(listing);
    kept := Kept(sorted, keep);
    doomed := Doomed(sorted, kept);
    SortSorts(listing);
    SameElements(sorted, listing);
    DoomedAreTheRest(sorted, kept);
    forall x | x in kept
      ensures x in sorted
    {
      var i :| 0 <= i < |sorted| && sorted[i] == x;
    }
  }
}
