/** The retention rule on a listing in any order, snapshot by snapshot. */
module RetentionRule {
  import opened Common
  import opened Retention
  import StableRank

  // Newer, or as old and listed before
  predicate IsAhead(listing: seq<Snapshot>, j: nat, i: nat)
    requires j < |listing| && i < |listing|
  {
    listing[j].mtime > listing[i].mtime || (listing[j].mtime == listing[i].mtime && j < i)
  }

  function Ahead(listing: seq<Snapshot>, i: nat): set<nat>
    requires i < |listing|
  {
    set j | 0 <= j < |listing| && IsAhead(listing, j, i)
  }

  // Days of the clock that have a snapshot and come after the day of this one
  function LaterDays(listing: seq<Snapshot>, i: nat): set<int>
    requires i < |listing|
  {
    set x | x in listing && x.mtime / 86400000000000 > listing[i].mtime / 86400000000000 :: x.mtime / 86400000000000
  }

  // ---------- places in the sorted listing ----------

  function Above(s: seq<Snapshot>, bound: int): set<nat> {
    set j | 0 <= j < |s| && s[j].mtime > bound
  }

  function Ties(s: seq<Snapshot>, bound: int): set<nat> {
    set j | 0 <= j < |s| && s[j].mtime == bound
  }

  lemma {:induction false} AboveIsCount(s: seq<Snapshot>, bound: int)
    ensures StableRank.CountAbove(s, Recency, bound as real) == |Above(s, bound)|
    decreases |s|
  {
    if s == [] {
      assert Above(s, bound) == {};
    } else {
      var n := |s| - 1;
      AboveIsCount(s[..n], bound);
      assert Above(s, bound) == Above(s[..n], bound) + if s[n].mtime > bound then {n} else {};
    }
  }

  lemma {:induction false} TiesIsCount(s: seq<Snapshot>, bound: int)
    ensures StableRank.CountTies(s, Recency, bound as real) == |Ties(s, bound)|
    decreases |s|
  {
    if s == [] {
      assert Ties(s, bound) == {};
    } else {
      var n := |s| - 1;
      TiesIsCount(s[..n], bound);
      assert Ties(s, bound) == Ties(s[..n], bound) + if s[n].mtime == bound then {n} else {};
    }
  }

  lemma AheadIsRank(listing: seq<Snapshot>, i: nat)
    requires i < |listing|
    ensures StableRank.RankIn(listing, Recency, i) == |Ahead(listing, i)|
  {
    var bound := listing[i].mtime;
    AboveIsCount(listing, bound);
    TiesIsCount(listing[..i], bound);
    assert Ahead(listing, i) == Above(listing, bound) + Ties(listing[..i], bound);
  }

  lemma PlaceOf(listing: seq<Snapshot>, i: nat)
    requires i < |listing|
    ensures var sorted := SortNewestFirst(listing);
            |sorted| == |listing| && |Ahead(listing, i)| < |sorted| && sorted[|Ahead(listing, i)|] == listing[i]
  {
    StableRank.SortPutsAtRank(listing, Recency, i);
    AheadIsRank(listing, i);
  }

  lemma AheadIsEarlier(listing: seq<Snapshot>, j: nat, i: nat)
    requires j < |listing| && i < |listing| && IsAhead(listing, j, i)
    ensures |Ahead(listing, j)| < |Ahead(listing, i)|
  {
    assert Ahead(listing, j) + {j} <= Ahead(listing, i);
    SubsetSize(Ahead(listing, j) + {j}, Ahead(listing, i));
  }

  // What precedes a snapshot in the sorted listing is what is ahead of it.
  lemma PrecedingAreAhead(listing: seq<Snapshot>, i: nat, x: Snapshot)
    requires i < |listing| && |Ahead(listing, i)| <= |SortNewestFirst(listing)|
    ensures x in SortNewestFirst(listing)[..|Ahead(listing, i)|]
        ==> exists j :: 0 <= j < |listing| && listing[j] == x && IsAhead(listing, j, i)
  {
    var sorted, place := SortNewestFirst(listing), |Ahead(listing, i)|;
    if x in sorted[..place] {
      var q :| 0 <= q < place && sorted[q] == x;
      var j := ListedAt(listing, q);
      PlaceOf(listing, i);
      if j != i && !IsAhead(listing, j, i) {
        AheadIsEarlier(listing, i, j);
      }
    }
  }

  // Every place is some listed snapshot's.
  lemma ListedAt(listing: seq<Snapshot>, q: nat) returns (j: nat)
    requires q < |SortNewestFirst(listing)|
    ensures j < |listing| && |Ahead(listing, j)| == q && SortNewestFirst(listing)[q] == listing[j]
  {
    var n := |listing|;
    var places := Places(listing, n);
    PlacesAreAll(listing);
    StableRank.SortKeepsLength(listing, Recency);
    assert q in places;
    j :| 0 <= j < n && |Ahead(listing, j)| == q;
    PlaceOf(listing, j);
  }

  function Places(listing: seq<Snapshot>, n: nat): set<nat>
    requires n <= |listing|
  {
    set j | 0 <= j < n :: |Ahead(listing, j)|
  }

  function Below(n: nat): (s: set<nat>)
    ensures forall k: nat :: k in s <==> k < n
    ensures |s| == n
  {
    if n == 0 then {} else Below(n - 1) + {n - 1}
  }

  lemma {:induction false} PlacesCount(listing: seq<Snapshot>, n: nat)
    requires n <= |listing|
    ensures |Places(listing, n)| == n
  {
    if n == 0 {
      assert Places(listing, n) == {};
    } else {
      var m := n - 1;
      PlacesCount(listing, m);
      var place := |Ahead(listing, m)|;
      forall j | 0 <= j < m
        ensures |Ahead(listing, j)| != place
      {
        if IsAhead(listing, j, m) {
          AheadIsEarlier(listing, j, m);
        } else {
          AheadIsEarlier(listing, m, j);
        }
      }
      assert Places(listing, n) == Places(listing, m) + {place} && place !in Places(listing, m);
    }
  }

  lemma PlacesAreAll(listing: seq<Snapshot>)
    ensures Places(listing, |listing|) == Below(|listing|)
  {
    var n := |listing|;
    PlacesCount(listing, n);
    forall p | p in Places(listing, n)
      ensures p < n
    {
      var j :| 0 <= j < n && |Ahead(listing, j)| == p;
      PlaceOf(listing, j);
    }
    assert Places(listing, n) <= Below(n);
    assert |Below(n) - Places(listing, n)| == 0;
  }

  // ---------- the rule ----------

  lemma FirstOfDayMeans(listing: seq<Snapshot>, i: nat)
    requires i < |listing| && |Ahead(listing, i)| < |SortNewestFirst(listing)|
    requires SortNewestFirst(listing)[|Ahead(listing, i)|] == listing[i]
    ensures FirstOfDay(SortNewestFirst(listing), |Ahead(listing, i)|)
       <==> forall j | j in Ahead(listing, i) :: Day(listing[j]) != Day(listing[i])
  {
    var sorted, place := SortNewestFirst(listing), |Ahead(listing, i)|;
    forall j | j in Ahead(listing, i)
      ensures Day(listing[j]) in Days(sorted[..place])
    {
      AheadIsEarlier(listing, j, i);
      PlaceOf(listing, j);
      assert sorted[..place][|Ahead(listing, j)|] == listing[j];
    }
    forall x | x in sorted[..place]
      ensures exists j :: j in Ahead(listing, i) && listing[j] == x
    {
      PrecedingAreAhead(listing, i, x);
      var j :| 0 <= j < |listing| && listing[j] == x && IsAhead(listing, j, i);
      assert j in Ahead(listing, i);
    }
  }

  lemma LaterDaysMeans(listing: seq<Snapshot>, i: nat)
    requires i < |listing|
    ensures Later(Days(SortNewestFirst(listing)), Day(listing[i])) == LaterDays(listing, i)
  {
    SortSorts(listing);
    SameElements(SortNewestFirst(listing), listing);
  }

  lemma DistinctPlaces(listing: seq<Snapshot>, i: nat, p: nat)
    requires Distinct(listing) && i < |listing| && p < |SortNewestFirst(listing)|
    requires SortNewestFirst(listing)[p] == listing[i]
    ensures p == |Ahead(listing, i)|
  {
    var j := ListedAt(listing, p);
  }

  /** A published snapshot is deleted exactly when at least `keep` others are ahead of it, and one of these
    * is of its own day or at least `keep` later days have a snapshot. */
  lemma PrunedExactly(listing: seq<Snapshot>, keep: nat, i: nat)
    requires Distinct(listing) && i < |listing|
    ensures var sorted := SortNewestFirst(listing);
            var dayTaken := exists j :: j in Ahead(listing, i) && listing[j].mtime / 86400000000000 == listing[i].mtime / 86400000000000;
            listing[i] in Doomed(sorted, Kept(sorted, keep)) <==>
              |Ahead(listing, i)| >= keep && (dayTaken || |LaterDays(listing, i)| >= keep)
  {
    var sorted, place := SortNewestFirst(listing), |Ahead(listing, i)|;
    SortSorts(listing);
    PlaceOf(listing, i);
    FirstOfDayMeans(listing, i);
    LaterDaysMeans(listing, i);
    if FirstOfDay(sorted, place) {
      LaterDaysAreEarlier(sorted, place);
    }
    assert listing[i] in Kept(sorted, keep) <==> Keeps(sorted, keep, place) by {
      forall p | 0 <= p < |sorted| && Keeps(sorted, keep, p) && sorted[p] == listing[i]
        ensures p == place
      {
        DistinctPlaces(listing, i, p);
      }
    }
    DoomedAreTheRest(sorted, Kept(sorted, keep));
  }

  /** And nothing else is deleted, and nothing twice. */
  lemma PrunesEachOnce(listing: seq<Snapshot>, keep: nat)
    requires Distinct(listing)
    ensures var sorted := SortNewestFirst(listing);
            var doomed := Doomed(sorted, Kept(sorted, keep));
            Distinct(doomed) && NewestFirst(doomed) && forall x :: x in doomed ==> x in listing
  {
    var sorted := SortNewestFirst(listing);
    SortSorts(listing);
    SameElements(sorted, listing);
    DoomedAreTheRest(sorted, Kept(sorted, keep));
    DoomedInOrder(sorted, Kept(sorted, keep));
  }

  lemma SnocInOrder(s: seq<Snapshot>, x: Snapshot)
    requires Distinct(s) && NewestFirst(s) && forall y | y in s :: y != x && y.mtime >= x.mtime
    ensures Distinct(s + [x]) && NewestFirst(s + [x])
  {
    assert forall i | 0 <= i < |s| :: s[i] in s;
  }

  lemma LastIsBehind(sorted: seq<Snapshot>, y: Snapshot)
    requires sorted != [] && Distinct(sorted) && NewestFirst(sorted) && y in sorted[..|sorted| - 1]
    ensures y != sorted[|sorted| - 1] && y.mtime >= sorted[|sorted| - 1].mtime
  {
    var j :| 0 <= j < |sorted| - 1 && sorted[..|sorted| - 1][j] == y;
    assert sorted[j] == y;
  }

  lemma InitInOrder(sorted: seq<Snapshot>)
    requires sorted != [] && Distinct(sorted) && NewestFirst(sorted)
    ensures Distinct(sorted[..|sorted| - 1]) && NewestFirst(sorted[..|sorted| - 1])
  {
  }

  lemma {:induction false} DoomedInOrder(sorted: seq<Snapshot>, kept: set<Snapshot>)
    requires Distinct(sorted) && NewestFirst(sorted)
    ensures Distinct(Doomed(sorted, kept)) && NewestFirst(Doomed(sorted, kept))
    decreases |sorted|
  {
    if sorted != [] {
      var n := |sorted| - 1;
      InitInOrder(sorted);
      DoomedInOrder(sorted[..n], kept);
      DoomedAreTheRest(sorted[..n], kept);
      var earlier := Doomed(sorted[..n], kept);
      forall y | y in earlier
        ensures y != sorted[n] && y.mtime >= sorted[n].mtime
      {
        LastIsBehind(sorted, y);
      }
      SnocInOrder(earlier, sorted[n]);
      assert earlier + [] == earlier;
    }
  }
}
