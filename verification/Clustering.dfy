/** Commit clustering for git onboarding: group by time gap, merge neighbours
  * whose files overlap, then merge the smallest group into a neighbour until
  * the cap is met. Dates are exact microsecond counts. */
module Clustering {
  import StableSort

  datatype Commit = Commit(hash: string, date: int, files: set<string>)

  type Group = seq<Commit>

  const OVERLAP: real := 0.2
  const MICROSECONDS_PER_HOUR: real := 3600000000.0

  // The stable sort by date

  predicate ByDate(s: seq<Commit>) {
    forall i, j :: 0 <= i <= j < |s| ==> s[i].date <= s[j].date
  }

  // Earlier commits come first, so the sort by date is the sort by earliness.
  function Earliness(c: Commit): real {
    -(c.date as real)
  }

  function SortByDate(s: seq<Commit>): seq<Commit> {
    StableSort.Sort(s, Earliness)
  }

  /** The commits of one date, in order: what a stable sort may not disturb. */
  function At(s: seq<Commit>, date: int): seq<Commit>
    decreases |s|
  {
    if s == [] then []
    else At(s[..|s| - 1], date) + (if s[|s| - 1].date == date then [s[|s| - 1]] else [])
  }

  lemma AtSnoc(s: seq<Commit>, c: Commit, date: int)
    ensures At(s + [c], date) == At(s, date) + (if c.date == date then [c] else [])
  {
    assert (s + [c])[..|s|] == s;
  }

  lemma {:induction false} AtConcat(s: seq<Commit>, t: seq<Commit>, date: int)
    ensures At(s + t, date) == At(s, date) + At(t, date)
    decreases |t|
  {
    if t == [] {
      assert s + t == s;
    } else {
      var n := |t| - 1;
      AtConcat(s, t[..n], date);
      assert s + t == (s + t[..n]) + [t[n]];
      AtSnoc(s + t[..n], t[n], date);
    }
  }

  lemma {:induction false} AtNone(s: seq<Commit>, date: int)
    requires forall c :: c in s ==> c.date != date
    ensures At(s, date) == []
    decreases |s|
  {
    if s != [] {
      AtNone(s[..|s| - 1], date);
    }
  }

  lemma {:induction false} AtHolds(s: seq<Commit>, date: int)
    ensures forall c :: c in At(s, date) <==> c in s && c.date == date
    decreases |s|
  {
    if s != [] {
      var n := |s| - 1;
      AtHolds(s[..n], date);
      assert s == s[..n] + [s[n]];
    }
  }

  ghost predicate SameAt(s: seq<Commit>, t: seq<Commit>, date: int) {
    At(s, date) == At(t, date)
  }

  lemma SnocInjective<T>(a: seq<T>, x: T, b: seq<T>, y: T)
    requires a + [x] == b + [y]
    ensures a == b && x == y
  {
    assert (a + [x])[..|a|] == a && (b + [y])[..|b|] == b;
    assert (a + [x])[|a|] == x && (b + [y])[|b|] == y;
  }

  lemma LastDatesAgree(s: seq<Commit>, x: Commit, t: seq<Commit>, y: Commit)
    requires ByDate(s + [x]) && ByDate(t + [y])
    requires forall date :: SameAt(s + [x], t + [y], date)
    ensures x.date <= y.date
  {
    assert SameAt(s + [x], t + [y], x.date);
    AtSnoc(s, x, x.date);
    AtHolds(t + [y], x.date);
    assert x in t + [y];
    assert (t + [y])[|t|] == y;
  }

  lemma LastAgrees(s: seq<Commit>, x: Commit, t: seq<Commit>, y: Commit)
    requires ByDate(s + [x]) && ByDate(t + [y])
    requires forall date :: SameAt(s + [x], t + [y], date)
    ensures x == y
    ensures forall date :: SameAt(s, t, date)
  {
    LastDatesAgree(s, x, t, y);
    forall date
      ensures SameAt(t + [y], s + [x], date)
    {
      assert SameAt(s + [x], t + [y], date);
    }
    LastDatesAgree(t, y, s, x);
    assert SameAt(s + [x], t + [y], x.date);
    AtSnoc(s, x, x.date);
    AtSnoc(t, y, x.date);
    SnocInjective(At(s, x.date), x, At(t, x.date), y);
    forall date
      ensures SameAt(s, t, date)
    {
      assert SameAt(s + [x], t + [y], date);
      AtSnoc(s, x, date);
      AtSnoc(t, y, date);
      if date == x.date {
        SnocInjective(At(s, date), x, At(t, date), y);
      } else {
        assert At(s + [x], date) == At(s, date) && At(t + [y], date) == At(t, date);
      }
    }
  }

  lemma NoneAgrees(t: seq<Commit>)
    requires forall date :: SameAt([], t, date)
    ensures t == []
  {
    var date := if t == [] then 0 else t[|t| - 1].date;
    assert SameAt([], t, date);
    AtHolds(t, date);
  }

  /** A date-ordered sequence is determined by its commits of each date. */
  lemma {:induction false} StableOrderIsUnique(s: seq<Commit>, t: seq<Commit>)
    requires ByDate(s) && ByDate(t)
    requires forall date :: SameAt(s, t, date)
    ensures s == t
    decreases |s|
  {
    if s == [] {
      NoneAgrees(t);
    } else if t == [] {
      assert forall date :: SameAt(s, t, date) ==> SameAt(t, s, date);
      NoneAgrees(s);
    } else {
      var m, n := |s| - 1, |t| - 1;
      assert s == s[..m] + [s[m]] && t == t[..n] + [t[n]];
      LastAgrees(s[..m], s[m], t[..n], t[n]);
      StableOrderIsUnique(s[..m], t[..n]);
    }
  }

  lemma {:induction false} InsertIsStable(sorted: seq<Commit>, c: Commit, date: int)
    requires ByDate(sorted)
    ensures At(StableSort.Insert(sorted, c, Earliness), date) == At(sorted, date) + (if c.date == date then [c] else [])
    decreases |sorted|
  {
    var n := |sorted| - 1;
    if n < 0 || Earliness(sorted[n]) >= Earliness(c) {
      AtSnoc(sorted, c, date);
    } else {
      InsertIsStable(sorted[..n], c, date);
      AtSnoc(StableSort.Insert(sorted[..n], c, Earliness), sorted[n], date);
    }
  }

  lemma SortIsOrdered(s: seq<Commit>)
    ensures ByDate(SortByDate(s)) && multiset(SortByDate(s)) == multiset(s)
  {
    StableSort.SortSorts(s, Earliness);
    var sorted := SortByDate(s);
    forall i, j | 0 <= i <= j < |sorted|
      ensures sorted[i].date <= sorted[j].date
    {
      assert Earliness(sorted[i]) >= Earliness(sorted[j]);
    }
  }

  /** Sorting is by date, keeps the order of equal dates, and keeps every commit. */
  lemma {:induction false} SortIsStable(s: seq<Commit>)
    ensures ByDate(SortByDate(s))
    ensures forall date :: SameAt(s, SortByDate(s), date)
    ensures forall x :: x in SortByDate(s) <==> x in s
    decreases |s|
  {
    SortIsOrdered(s);
    assert forall x :: x in SortByDate(s) <==> x in multiset(SortByDate(s));
    assert forall x :: x in s <==> x in multiset(s);
    if s != [] {
      var n := |s| - 1;
      SortIsStable(s[..n]);
      forall date
        ensures SameAt(s, SortByDate(s), date)
      {
        assert SameAt(s[..n], SortByDate(s[..n]), date);
        InsertIsStable(SortByDate(s[..n]), s[n], date);
      }
    }
  }

  lemma SortedStays(s: seq<Commit>)
    requires ByDate(s)
    ensures SortByDate(s) == s
  {
    SortIsStable(s);
    StableOrderIsUnique(s, SortByDate(s));
  }

  // The two grouping passes

  function GapHours(earlier: Commit, later: Commit): real {
    (later.date - earlier.date) as real / MICROSECONDS_PER_HOUR
  }

  function Files(group: Group): set<string> {
    set c, f | c in group && f in c.files :: f
  }

  function Jaccard(a: set<string>, b: set<string>): real {
    if a + b == {} then 0.0 else |a * b| as real / |a + b| as real
  }

  function AddToLast(groups: seq<Group>, more: Group): seq<Group>
    requires groups != []
  {
    groups[..|groups| - 1] + [groups[|groups| - 1] + more]
  }

  function TimeGroups(s: seq<Commit>, window: real): (groups: seq<Group>)
    ensures groups == [] <==> s == []
    decreases |s|
  {
    var n := |s| - 1;
    if n < 0 then []
    else if n == 0 then [s]
    else
      var groups := TimeGroups(s[..n], window);
      if GapHours(s[n - 1], s[n]) > window then groups + [[s[n]]] else AddToLast(groups, [s[n]])
  }

  function JoinNext(merged: seq<Group>, g: Group): (next: seq<Group>)
    requires merged != []
    ensures next != []
  {
    if Jaccard(Files(merged[|merged| - 1]), Files(g)) > OVERLAP then AddToLast(merged, g) else merged + [g]
  }

  function Joined(groups: seq<Group>): (merged: seq<Group>)
    ensures merged == [] <==> groups == []
    decreases |groups|
  {
    var n := |groups| - 1;
    if n <= 0 then groups
    else
      JoinNext(Joined(groups[..n]), groups[n])
  }

  // The cap

  /** The first of the smallest groups. */
  function Smallest(groups: seq<Group>): (k: nat)
    requires groups != []
    ensures k < |groups|
    ensures forall i :: 0 <= i < |groups| ==> |groups[k]| <= |groups[i]|
    ensures forall i :: 0 <= i < k ==> |groups[k]| < |groups[i]|
    decreases |groups|
  {
    var n := |groups| - 1;
    if n == 0 then 0
    else
      var k := Smallest(groups[..n]);
      if |groups[n]| < |groups[k]| then n else k
  }

  /** One turn of the cap loop: the smallest group goes to the end of its left neighbour, or, when it is
    * the first, to the end of its right neighbour. */
  function CapStep(groups: seq<Group>): seq<Group>
    requires groups != []
  {
    var k := Smallest(groups);
    if k > 0 then groups[..k - 1] + [groups[k - 1] + groups[k]] + groups[k + 1..]
    else if |groups| > 1 then [groups[1] + groups[0]] + groups[2..]
    else groups
  }

  lemma CapStepShrinks(groups: seq<Group>)
    requires groups != []
    ensures |groups| > 1 ==> |CapStep(groups)| == |groups| - 1
    ensures CapStep(groups) == groups <==> |groups| == 1
  {
  }

  function Capped(groups: seq<Group>, cap: int): (capped: seq<Group>)
    requires cap >= 1
    ensures |capped| == if |groups| <= cap then |groups| else cap
    decreases |groups|
  {
    if |groups| <= cap then groups
    else
      CapStepShrinks(groups);
      Capped(CapStep(groups), cap)
  }

  function SortedEach(groups: seq<Group>): (clusters: seq<Group>)
    ensures |clusters| == |groups|
    ensures forall i :: 0 <= i < |groups| ==> clusters[i] == SortByDate(groups[i])
  {
    seq(|groups|, i requires 0 <= i < |groups| => SortByDate(groups[i]))
  }

  function AtLeastOne(maxClusters: int): int {
    if maxClusters < 1 then 1 else maxClusters
  }

  function Clusters(commits: seq<Commit>, maxClusters: int, window: real): seq<Group> {
    SortedEach(Capped(Joined(TimeGroups(SortByDate(commits), window)), AtLeastOne(maxClusters)))
  }

  method GroupByTime(sorted: seq<Commit>, window: real) returns (groups: seq<Group>)
    requires sorted != []
    ensures groups == TimeGroups(sorted, window)
  {
    groups := [[sorted[0]]];
    assert sorted[..1] == [sorted[0]];
    for i := 1 to |sorted|
      invariant groups == TimeGroups(sorted[..i], window) && groups != []
      invariant groups[|groups| - 1] != []
      invariant groups[|groups| - 1][|groups[|groups| - 1]| - 1] == sorted[i - 1]
    {
      var commit := sorted[i];
      var latest := groups[|groups| - 1];
      var prev := latest[|latest| - 1];
      assert sorted[..i + 1][..i] == sorted[..i];
      if GapHours(prev, commit) > window {
        groups := groups + [[commit]];
      } else {
        groups := groups[..|groups| - 1] + [latest + [commit]];
      }
    }
    assert sorted[..|sorted|] == sorted;
  }

  lemma JoinedSnoc(groups: seq<Group>, g: Group)
    requires groups != []
    ensures Joined(groups + [g]) == JoinNext(Joined(groups), g)
  {
    assert (groups + [g])[..|groups|] == groups;
  }

  method MergeByOverlap(groups: seq<Group>) returns (merged: seq<Group>)
    requires groups != []
    ensures merged == Joined(groups)
  {
    merged := [groups[0]];
    assert groups[..1] == merged;
    for i := 1 to |groups|
      invariant merged == Joined(groups[..i]) && merged != []
    {
      JoinedSnoc(groups[..i], groups[i]);
      assert groups[..i + 1] == groups[..i] + [groups[i]];
      var prevFiles := Files(merged[|merged| - 1]);
      var currFiles := Files(groups[i]);
      if Jaccard(prevFiles, currFiles) > OVERLAP {
        merged := AddToLast(merged, groups[i]);
      } else {
        merged := merged + [groups[i]];
      }
    }
    assert groups[..|groups|] == groups;
  }

  function MergeInto(groups: seq<Group>, smallest: nat, into: nat): seq<Group>
    requires smallest < |groups| && into < |groups|
  {
    var extended := groups[into := groups[into] + groups[smallest]];
    extended[..smallest] + extended[smallest + 1..]
  }

  lemma MergeLeft(groups: seq<Group>, k: nat)
    requires 0 < k < |groups|
    ensures MergeInto(groups, k, k - 1) == groups[..k - 1] + [groups[k - 1] + groups[k]] + groups[k + 1..]
  {
    var extended := groups[k - 1 := groups[k - 1] + groups[k]];
    assert extended[..k] == groups[..k - 1] + [groups[k - 1] + groups[k]];
    assert extended[k + 1..] == groups[k + 1..];
  }

  lemma MergeRight(groups: seq<Group>)
    requires |groups| > 1
    ensures MergeInto(groups, 0, 1) == [groups[1] + groups[0]] + groups[2..]
  {
    var extended := groups[1 := groups[1] + groups[0]];
    assert extended[1..] == [groups[1] + groups[0]] + groups[2..];
    assert extended[..0] + extended[1..] == extended[1..];
  }

  lemma MergeIntoIsCapStep(groups: seq<Group>)
    requires |groups| > 1
    ensures
      var k := Smallest(groups);
      MergeInto(groups, k, if k > 0 then k - 1 else 1) == CapStep(groups)
  {
    var k := Smallest(groups);
    if k > 0 {
      MergeLeft(groups, k);
    } else {
      MergeRight(groups);
    }
  }

  /** The cap loop; it ends because the cap is at least one. */
  method MergeSmallest(groups: seq<Group>, cap: int) returns (merged: seq<Group>)
    requires cap >= 1
    ensures merged == Capped(groups, cap)
  {
    merged := groups;
    while |merged| > cap
      invariant Capped(merged, cap) == Capped(groups, cap)
    {
      CapStepShrinks(merged);
      MergeIntoIsCapStep(merged);
      var smallest := Smallest(merged);
      var into := if smallest > 0 then smallest - 1 else if |merged| > 1 then 1 else 0;
      if into != smallest {
        merged := MergeInto(merged, smallest, into);
      }
    }
  }

  method SortGroups(groups: seq<Group>) returns (clusters: seq<Group>)
    ensures clusters == SortedEach(groups)
  {
    clusters := [];
    for i := 0 to |groups|
      invariant clusters == SortedEach(groups)[..i]
    {
      clusters := clusters + [SortByDate(groups[i])];
    }
  }

  method ClusterCommits(commits: seq<Commit>, maxClusters: int, window: real) returns (clusters: seq<Group>)
    ensures clusters == Clusters(commits, maxClusters, window)
  {
    if |commits| == 0 {
      return [];
    }
    var sorted := SortByDate(commits);
    SortIsStable(commits);
    assert commits[0] in sorted;
    var groups := GroupByTime(sorted, window);
    var merged := MergeByOverlap(groups);
    merged := MergeSmallest(merged, AtLeastOne(maxClusters));
    clusters := SortGroups(merged);
  }
}
