/** What commit clustering promises: nothing lost, time order kept, close commits kept together, the cap
  * met. The one result that needs a non-negative window says so, and that no weaker condition does. */
module ClusteringLaws {
  import opened Common
  import opened Clustering

  function Flatten<T>(parts: seq<seq<T>>): seq<T>
    decreases |parts|
  {
    if parts == [] then [] else Flatten(parts[..|parts| - 1]) + parts[|parts| - 1]
  }

  /** More than a window of hours apart, counted in microseconds. */
  predicate Further(earlier: Commit, later: Commit, window: real) {
    (later.date - earlier.date) as real > window * 3600000000.0
  }

  lemma GapIsFurther(earlier: Commit, later: Commit, window: real)
    ensures GapHours(earlier, later) > window <==> Further(earlier, later, window)
  {
  }

  /** Every commit of `b` comes after every commit of `a`, by more than the window. */
  ghost predicate Beyond(a: Group, b: Group, window: real) {
    forall x, y :: x in a && y in b ==> x.date <= y.date && Further(x, y, window)
  }

  ghost predicate Apart(groups: seq<Group>, window: real) {
    && (forall i :: 0 <= i < |groups| ==> groups[i] != [])
    && (forall i, j :: 0 <= i < j < |groups| ==> Beyond(groups[i], groups[j], window))
  }

  // Flattening

  lemma FlattenSnoc<T>(parts: seq<seq<T>>, last: seq<T>)
    ensures Flatten(parts + [last]) == Flatten(parts) + last
  {
    assert (parts + [last])[..|parts|] == parts;
  }

  lemma {:induction false} FlattenConcat(a: seq<Group>, b: seq<Group>)
    ensures Flatten(a + b) == Flatten(a) + Flatten(b)
    decreases |b|
  {
    if b == [] {
      assert a + b == a;
    } else {
      var n := |b| - 1;
      var init, last := b[..n], b[n];
      FlattenConcat(a, init);
      assert a + b == (a + init) + [last];
      FlattenSnoc(a + init, last);
      assert Flatten(b) == Flatten(init) + last;
      assert (Flatten(a) + Flatten(init)) + last == Flatten(a) + (Flatten(init) + last);
    }
  }

  lemma {:induction false} InFlatten(groups: seq<Group>, x: Commit)
    ensures x in Flatten(groups) <==> exists i :: 0 <= i < |groups| && x in groups[i]
    decreases |groups|
  {
    if groups != [] {
      var n := |groups| - 1;
      InFlatten(groups[..n], x);
      assert forall i :: 0 <= i < n ==> groups[..n][i] == groups[i];
      if x in Flatten(groups[..n]) {
        var i :| 0 <= i < n && x in groups[..n][i];
        assert x in groups[i];
      }
    }
  }

  lemma FlattenPair(left: seq<Group>, a: Group, b: Group, right: seq<Group>)
    ensures Flatten(left + [a] + [b] + right) == Flatten(left) + a + b + Flatten(right)
    ensures Flatten(left + [a + b] + right) == Flatten(left) + (a + b) + Flatten(right)
  {
    FlattenConcat(left + [a] + [b], right);
    FlattenSnoc(left + [a], b);
    FlattenSnoc(left, a);
    FlattenConcat(left + [a + b], right);
    FlattenSnoc(left, a + b);
  }

  // Pass 1

  lemma GapGrows(x: Commit, mid: Commit, y: Commit, window: real)
    ensures x.date <= mid.date && Further(mid, y, window) ==> Further(x, y, window)
    ensures mid.date <= y.date && Further(x, mid, window) ==> Further(x, y, window)
  {
  }

  lemma LastOfFlatten(groups: seq<Group>)
    requires groups != [] && groups[|groups| - 1] != []
    ensures Flatten(groups) != []
    ensures Flatten(groups)[|Flatten(groups)| - 1] in groups[|groups| - 1]
  {
  }

  lemma NewGroupIsBeyond(groups: seq<Group>, window: real, last: Commit, c: Commit)
    requires Apart(groups, window)
    requires Further(last, c, window) && last.date <= c.date
    requires forall x :: x in Flatten(groups) ==> x.date <= last.date
    ensures Apart(groups + [[c]], window)
  {
    forall i | 0 <= i < |groups|
      ensures Beyond(groups[i], [c], window)
    {
      forall x | x in groups[i]
        ensures x.date <= c.date && Further(x, c, window)
      {
        InFlatten(groups, x);
        GapGrows(x, last, c, window);
      }
    }
  }

  lemma LastGroupStaysBeyond(groups: seq<Group>, window: real, last: Commit, c: Commit)
    requires Apart(groups, window) && groups != []
    requires last in groups[|groups| - 1] && last.date <= c.date
    ensures Apart(AddToLast(groups, [c]), window)
  {
    var n := |groups| - 1;
    forall i | 0 <= i < n
      ensures Beyond(groups[i], groups[n] + [c], window)
    {
      assert Beyond(groups[i], groups[n], window);
      forall x | x in groups[i]
        ensures x.date <= c.date && Further(x, c, window)
      {
        GapGrows(x, last, c, window);
      }
    }
  }

  ghost predicate Tiles(groups: seq<Group>, s: seq<Commit>, window: real) {
    Flatten(groups) == s && Apart(groups, window)
  }

  lemma NextCommitTiles(groups: seq<Group>, s: seq<Commit>, c: Commit, window: real, next: seq<Group>)
    requires groups != [] && s != [] && ByDate(s + [c]) && Tiles(groups, s, window)
    requires next == if Further(s[|s| - 1], c, window) then groups + [[c]] else AddToLast(groups, [c])
    ensures Tiles(next, s + [c], window)
  {
    var last := s[|s| - 1];
    assert (s + [c])[|s|] == c && forall i :: 0 <= i < |s| ==> (s + [c])[i] == s[i];
    LastOfFlatten(groups);
    FlattenSnoc(groups, [c]);
    FlattenSnoc(groups[..|groups| - 1], groups[|groups| - 1] + [c]);
    if Further(last, c, window) {
      NewGroupIsBeyond(groups, window, last, c);
    } else {
      LastGroupStaysBeyond(groups, window, last, c);
    }
  }

  lemma OneGroupTiles(s: seq<Commit>, window: real)
    requires |s| == 1
    ensures Tiles([s], s, window)
  {
    FlattenSnoc([], s);
  }

  lemma OrderedPrefix(s: seq<Commit>)
    requires ByDate(s) && s != []
    ensures ByDate(s[..|s| - 1]) && s[..|s| - 1] + [s[|s| - 1]] == s
  {
  }

  lemma {:induction false} TimeGroupsTile(s: seq<Commit>, window: real)
    requires ByDate(s)
    ensures Tiles(TimeGroups(s, window), s, window)
    decreases |s|
  {
    var n := |s| - 1;
    if n == 0 {
      OneGroupTiles(s, window);
    } else if n > 0 {
      OrderedPrefix(s);
      TimeGroupsTile(s[..n], window);
      assert s[..n][n - 1] == s[n - 1];
      NextCommitTiles(TimeGroups(s[..n], window), s[..n], s[n], window, TimeGroups(s, window));
    }
  }

  // Merging

  lemma BeyondUnion(a: Group, b: Group, ab: Group, other: Group, window: real)
    requires forall x :: x in ab ==> x in a || x in b
    ensures Beyond(a, other, window) && Beyond(b, other, window) ==> Beyond(ab, other, window)
    ensures Beyond(other, a, window) && Beyond(other, b, window) ==> Beyond(other, ab, window)
  {
  }

  /** Putting two neighbours together, in either order, keeps the groups apart. */
  lemma MergeStaysApart(left: seq<Group>, a: Group, b: Group, ab: Group, right: seq<Group>, window: real)
    requires Apart(left + [a] + [b] + right, window)
    requires ab == a + b || ab == b + a
    ensures Apart(left + [ab] + right, window)
  {
    var before, after := left + [a] + [b] + right, left + [ab] + right;
    var k := |left|;
    assert before[k] == a && before[k + 1] == b;
    assert forall i :: 0 <= i < k ==> before[i] == left[i];
    assert forall i :: k + 1 < i < |before| ==> before[i] == right[i - k - 2];
    forall i | 0 <= i < |after|
      ensures after[i] != []
    {
      assert before[if i <= k then i else i + 1] != [];
    }
    forall i, j | 0 <= i < j < |after|
      ensures Beyond(after[i], after[j], window)
    {
      var wasI, wasJ := if i <= k then i else i + 1, if j <= k then j else j + 1;
      assert Beyond(before[wasI], before[wasJ], window);
      if i == k {
        assert Beyond(before[k + 1], before[wasJ], window);
        BeyondUnion(a, b, ab, after[j], window);
      } else if j == k {
        assert Beyond(before[wasI], before[k + 1], window);
        BeyondUnion(a, b, ab, after[i], window);
      }
    }
  }

  lemma NextGroupTiles(merged: seq<Group>, done: seq<Group>, g: Group, window: real, next: seq<Group>)
    requires merged != [] && Tiles(merged, Flatten(done), window) && Apart(done + [g], window)
    requires next == AddToLast(merged, g) || next == merged + [g]
    ensures Tiles(next, Flatten(done + [g]), window)
  {
    var m := |merged| - 1;
    var left, last := merged[..m], merged[m];
    assert merged == left + [last];
    FlattenSnoc(done, g);
    FlattenSnoc(merged, g);
    JoinedBeforeNext(done, g, merged, window);
    assert left + [last] + [g] + [] == merged + [g];
    assert left + [last + g] + [] == AddToLast(merged, g);
    FlattenPair(left, last, g, []);
    MergeStaysApart(left, last, g, last + g, [], window);
  }

  lemma {:induction false} JoinedTile(groups: seq<Group>, window: real)
    requires Apart(groups, window)
    ensures Tiles(Joined(groups), Flatten(groups), window)
    decreases |groups|
  {
    var n := |groups| - 1;
    if n > 0 {
      JoinedTile(groups[..n], window);
      assert groups == groups[..n] + [groups[n]];
      JoinedSnoc(groups[..n], groups[n]);
      NextGroupTiles(Joined(groups[..n]), groups[..n], groups[n], window, Joined(groups));
    }
  }

  lemma JoinedBeforeNext(done: seq<Group>, g: Group, merged: seq<Group>, window: real)
    requires Apart(done + [g], window) && Tiles(merged, Flatten(done), window)
    ensures Apart(merged + [g], window)
  {
    assert (done + [g])[|done|] != [];
    forall i | 0 <= i < |merged|
      ensures Beyond(merged[i], g, window)
    {
      forall x | x in merged[i]
        ensures forall y :: y in g ==> x.date <= y.date && Further(x, y, window)
      {
        InFlatten(merged, x);
        InFlatten(done, x);
        var k :| 0 <= k < |done| && x in done[k];
        assert (done + [g])[k] == done[k] && (done + [g])[|done|] == g;
        assert Beyond((done + [g])[k], (done + [g])[|done|], window);
      }
    }
  }

  // The files both groups touch, and those either of them touches
  function Shared(a: Group, b: Group): set<string> {
    set c, d, f | c in a && d in b && f in c.files && f in d.files :: f
  }

  function Either(a: Group, b: Group): set<string> {
    set c, f | c in a + b && f in c.files :: f
  }

  /** More than a fifth of the files that either touches are touched by both. */
  predicate Overlaps(a: Group, b: Group) {
    5 * |Shared(a, b)| > |Either(a, b)|
  }

  lemma TimesKeepsOrder(x: real, y: real, e: real)
    requires e > 0.0
    ensures x > y <==> x * e > y * e
  {
  }

  lemma FifthOf(shared: nat, either: nat)
    requires either > 0
    ensures shared as real / either as real > 0.2 <==> 5 * shared > either
  {
    var part, e := shared as real / either as real, either as real;
    assert part * e == shared as real;
    TimesKeepsOrder(part, 0.2, e);
  }

  /** What joining goes by is that fifth. */
  lemma JoinsByAFifth(a: Group, b: Group)
    ensures Jaccard(Files(a), Files(b)) > OVERLAP <==> Overlaps(a, b)
  {
    assert Files(a) * Files(b) == Shared(a, b);
    assert Files(a) + Files(b) == Either(a, b);
    SharedFits(a, b);
    if Either(a, b) != {} {
      FifthOf(|Shared(a, b)|, |Either(a, b)|);
    }
  }

  lemma SharedFits(a: Group, b: Group)
    ensures |Shared(a, b)| <= |Either(a, b)|
  {
    SubsetSize(Shared(a, b), Either(a, b));
  }

  predicate OpensWithLittleOverlap(opening: Group, left: Group, right: Group) {
    opening <= right && !Overlaps(left, opening)
  }

  /** Neighbours that stay separate share few files: the group that opens the right one overlaps the whole
    * of the left one by at most a fifth. */
  lemma {:induction false} SeparateGroupsOverlapLittle(groups: seq<Group>, k: nat)
    requires 0 < k < |Joined(groups)|
    ensures exists i :: 0 <= i < |groups| && OpensWithLittleOverlap(groups[i], Joined(groups)[k - 1], Joined(groups)[k])
    decreases |groups|
  {
    var n := |groups| - 1;
    if n > 0 {
      var merged := Joined(groups[..n]);
      if k < |merged| {
        SeparateGroupsOverlapLittle(groups[..n], k);
        var i :| 0 <= i < n && OpensWithLittleOverlap(groups[..n][i], merged[k - 1], merged[k]);
        assert OpensWithLittleOverlap(groups[i], Joined(groups)[k - 1], Joined(groups)[k]);
      } else {
        JoinsByAFifth(merged[|merged| - 1], groups[n]);
        assert OpensWithLittleOverlap(groups[n], Joined(groups)[k - 1], Joined(groups)[k]);
      }
    }
  }

  // The cap

  lemma CapStepCases(groups: seq<Group>) returns (left: seq<Group>, a: Group, b: Group, right: seq<Group>)
    requires |groups| > 1
    ensures groups == left + [a] + [b] + right
    ensures CapStep(groups) == left + [a + b] + right || CapStep(groups) == left + [b + a] + right
  {
    var k := Smallest(groups);
    var at := if k > 0 then k - 1 else 0;
    left, a, b, right := groups[..at], groups[at], groups[at + 1], groups[at + 2..];
    assert k == 0 ==> [] + [b + a] + right == [b + a] + right;
  }

  lemma StepStaysApart(left: seq<Group>, a: Group, b: Group, right: seq<Group>, next: seq<Group>, window: real)
    requires Apart(left + [a] + [b] + right, window)
    requires next == left + [a + b] + right || next == left + [b + a] + right
    ensures Apart(next, window)
    ensures multiset(Flatten(next)) == multiset(Flatten(left + [a] + [b] + right))
  {
    FlattenPair(left, a, b, right);
    FlattenPair(left, b, a, right);
    MergeStaysApart(left, a, b, a + b, right, window);
    MergeStaysApart(left, a, b, b + a, right, window);
  }

  lemma CapStepStaysApart(groups: seq<Group>, window: real)
    requires |groups| > 1 && Apart(groups, window)
    ensures Apart(CapStep(groups), window)
    ensures multiset(Flatten(CapStep(groups))) == multiset(Flatten(groups))
  {
    var left, a, b, right := CapStepCases(groups);
    StepStaysApart(left, a, b, right, CapStep(groups), window);
  }

  lemma {:induction false} CappedStaysApart(groups: seq<Group>, cap: int, window: real)
    requires cap >= 1 && Apart(groups, window)
    ensures Apart(Capped(groups, cap), window)
    ensures multiset(Flatten(Capped(groups, cap))) == multiset(Flatten(groups))
    decreases |groups|
  {
    if |groups| > cap {
      CapStepShrinks(groups);
      CapStepStaysApart(groups, window);
      CappedStaysApart(CapStep(groups), cap, window);
    }
  }

  /** Commits of one date lie in one group, so two groups trade places without disturbing them. */
  lemma SwapAt(a: Group, b: Group, window: real, date: int)
    requires window >= 0.0 && Beyond(a, b, window)
    ensures At(a + b, date) == At(b + a, date)
  {
    AtConcat(a, b, date);
    AtConcat(b, a, date);
    if x :| x in a && x.date == date {
      forall y | y in b
        ensures y.date != date
      {
        assert Further(x, y, window);
      }
      AtNone(b, date);
    } else {
      AtNone(a, date);
    }
  }

  lemma AtMiddle(left: seq<Commit>, mid: seq<Commit>, other: seq<Commit>, right: seq<Commit>, date: int)
    requires At(mid, date) == At(other, date)
    ensures At(left + mid + right, date) == At(left + other + right, date)
  {
    AtConcat(left + mid, right, date);
    AtConcat(left, mid, date);
    AtConcat(left + other, right, date);
    AtConcat(left, other, date);
  }

  lemma StepKeepsDates(left: seq<Group>, a: Group, b: Group, right: seq<Group>, next: seq<Group>,
                       window: real, date: int)
    requires window >= 0.0 && Beyond(a, b, window)
    requires next == left + [a + b] + right || next == left + [b + a] + right
    ensures At(Flatten(next), date) == At(Flatten(left + [a] + [b] + right), date)
  {
    FlattenPair(left, a, b, right);
    FlattenPair(left, b, a, right);
    assert Flatten(left) + (a + b) + Flatten(right) == Flatten(left) + a + b + Flatten(right);
    SwapAt(a, b, window, date);
    AtMiddle(Flatten(left), a + b, b + a, Flatten(right), date);
  }

  lemma NeighboursAreBeyond(left: seq<Group>, a: Group, b: Group, right: seq<Group>, window: real)
    requires Apart(left + [a] + [b] + right, window)
    ensures Beyond(a, b, window)
  {
    var groups := left + [a] + [b] + right;
    assert groups[|left|] == a && groups[|left| + 1] == b;
    assert Beyond(groups[|left|], groups[|left| + 1], window);
  }

  lemma CapStepKeepsDates(groups: seq<Group>, window: real, date: int)
    requires |groups| > 1 && window >= 0.0 && Apart(groups, window)
    ensures At(Flatten(CapStep(groups)), date) == At(Flatten(groups), date)
  {
    var left, a, b, right := CapStepCases(groups);
    NeighboursAreBeyond(left, a, b, right, window);
    StepKeepsDates(left, a, b, right, CapStep(groups), window, date);
  }

  lemma {:induction false} CappedKeepsDates(groups: seq<Group>, cap: int, window: real, date: int)
    requires cap >= 1 && window >= 0.0 && Apart(groups, window)
    ensures At(Flatten(Capped(groups, cap)), date) == At(Flatten(groups), date)
    decreases |groups|
  {
    if |groups| > cap {
      CapStepShrinks(groups);
      CapStepStaysApart(groups, window);
      CapStepKeepsDates(groups, window, date);
      CappedKeepsDates(CapStep(groups), cap, window, date);
    }
  }

  // The final sort of each group

  lemma SortedEachSnoc(groups: seq<Group>)
    requires groups != []
    ensures SortedEach(groups) == SortedEach(groups[..|groups| - 1]) + [SortByDate(groups[|groups| - 1])]
  {
  }

  lemma {:induction false} SortedEachKeepsDates(groups: seq<Group>, date: int)
    ensures At(Flatten(SortedEach(groups)), date) == At(Flatten(groups), date)
    decreases |groups|
  {
    if groups != [] {
      var n := |groups| - 1;
      SortedEachKeepsDates(groups[..n], date);
      SortedEachSnoc(groups);
      FlattenSnoc(SortedEach(groups[..n]), SortByDate(groups[n]));
      SortIsStable(groups[n]);
      assert SameAt(groups[n], SortByDate(groups[n]), date);
      AtConcat(Flatten(SortedEach(groups[..n])), SortByDate(groups[n]), date);
      AtConcat(Flatten(groups[..n]), groups[n], date);
    }
  }

  lemma {:induction false} SortedEachKeepsAll(groups: seq<Group>)
    ensures multiset(Flatten(SortedEach(groups))) == multiset(Flatten(groups))
    decreases |groups|
  {
    if groups != [] {
      var n := |groups| - 1;
      SortedEachKeepsAll(groups[..n]);
      SortedEachSnoc(groups);
      FlattenSnoc(SortedEach(groups[..n]), SortByDate(groups[n]));
      SortIsOrdered(groups[n]);
    }
  }

  lemma SortedEachStaysApart(groups: seq<Group>, window: real)
    requires Apart(groups, window)
    ensures Apart(SortedEach(groups), window)
  {
    forall i | 0 <= i < |groups|
      ensures forall x :: x in SortedEach(groups)[i] <==> x in groups[i]
    {
      SortIsStable(groups[i]);
    }
    forall i | 0 <= i < |groups|
      ensures SortedEach(groups)[i] != []
    {
      assert groups[i][0] in SortedEach(groups)[i];
    }
    forall i, j | 0 <= i < j < |groups|
      ensures Beyond(SortedEach(groups)[i], SortedEach(groups)[j], window)
    {
      assert Beyond(groups[i], groups[j], window);
    }
  }

  lemma EarlierClusters(clusters: seq<Group>, window: real)
    requires clusters != [] && Apart(clusters, window)
    ensures var n := |clusters| - 1;
            Apart(clusters[..n], window)
            && forall x, y :: x in Flatten(clusters[..n]) && y in clusters[n] ==> x.date <= y.date
  {
    var n := |clusters| - 1;
    forall x, y | x in Flatten(clusters[..n]) && y in clusters[n]
      ensures x.date <= y.date
    {
      InFlatten(clusters[..n], x);
      var i :| 0 <= i < n && x in clusters[..n][i];
      assert Beyond(clusters[i], clusters[n], window);
    }
  }

  lemma {:induction false} ApartIsOrdered(clusters: seq<Group>, window: real)
    requires Apart(clusters, window) && forall i :: 0 <= i < |clusters| ==> ByDate(clusters[i])
    ensures ByDate(Flatten(clusters))
    decreases |clusters|
  {
    if clusters != [] {
      var n := |clusters| - 1;
      ApartIsOrdered(clusters[..n], window);
      EarlierClusters(clusters, window);
      OrderedConcat(Flatten(clusters[..n]), clusters[n]);
    }
  }

  lemma OrderedConcat(s: seq<Commit>, t: seq<Commit>)
    requires ByDate(s) && ByDate(t) && forall x, y :: x in s && y in t ==> x.date <= y.date
    ensures ByDate(s + t)
  {
    forall i, j | 0 <= i <= j < |s + t|
      ensures (s + t)[i].date <= (s + t)[j].date
    {
      if i < |s| <= j {
        assert s[i] in s && t[j - |s|] in t;
      }
    }
  }

  // The main results

  /** For every window: no commit is lost or repeated, the clusters follow each other in time by more than
    * the window, and their commits read off in date order. */
  lemma ClustersKeepEverything(commits: seq<Commit>, maxClusters: int, window: real)
    ensures
      var clusters := Clusters(commits, maxClusters, window);
      && multiset(Flatten(clusters)) == multiset(commits)
      && ByDate(Flatten(clusters))
      && Apart(clusters, window)
  {
    var sorted := SortByDate(commits);
    var joined := Joined(TimeGroups(sorted, window));
    var capped := Capped(joined, AtLeastOne(maxClusters));
    SortIsStable(commits);
    SortIsOrdered(commits);
    TimeGroupsTile(sorted, window);
    JoinedTile(TimeGroups(sorted, window), window);
    CappedStaysApart(joined, AtLeastOne(maxClusters), window);
    SortedEachKeepsAll(capped);
    SortedEachStaysApart(capped, window);
    forall i | 0 <= i < |capped|
      ensures ByDate(SortedEach(capped)[i])
    {
      SortIsStable(capped[i]);
    }
    ApartIsOrdered(SortedEach(capped), window);
  }

  ghost predicate Far(a: Group, b: Group, window: real) {
    forall x, y :: x in a && y in b ==> Further(x, y, window) && (x.date - y.date) as real < -(window * 3600000000.0)
  }

  lemma ApartIsFar(clusters: seq<Group>, window: real, i: nat, j: nat)
    requires i < j < |clusters| && Apart(clusters, window)
    ensures Far(clusters[i], clusters[j], window)
  {
    assert Beyond(clusters[i], clusters[j], window);
  }

  /** Commits of different clusters are further apart than the window: close commits, and with a
    * non-negative window commits of one date, are never split. */
  lemma CloseCommitsShareACluster(commits: seq<Commit>, maxClusters: int, window: real, i: nat, j: nat)
    requires i < j < |Clusters(commits, maxClusters, window)|
    ensures Far(Clusters(commits, maxClusters, window)[i], Clusters(commits, maxClusters, window)[j], window)
  {
    ClustersKeepEverything(commits, maxClusters, window);
    ApartIsFar(Clusters(commits, maxClusters, window), window, i, j);
  }

  /** How many clusters there are. */
  lemma ClusterCount(commits: seq<Commit>, maxClusters: int, window: real)
    ensures
      var merged := Joined(TimeGroups(SortByDate(commits), window));
      var cap := if maxClusters < 1 then 1 else maxClusters;
      |Clusters(commits, maxClusters, window)| == if |merged| <= cap then |merged| else cap
    ensures Clusters(commits, maxClusters, window) == [] <==> commits == []
  {
    SortIsOrdered(commits);
    if commits != [] {
      assert commits[0] in multiset(commits);
    }
  }

  /** The clusters, end to end, are the stably sorted input, so each is a contiguous run of it. */
  lemma ClustersTile(commits: seq<Commit>, maxClusters: int, window: real)
    requires window >= 0.0
    ensures Flatten(Clusters(commits, maxClusters, window)) == SortByDate(commits)
  {
    var sorted := SortByDate(commits);
    var joined := Joined(TimeGroups(sorted, window));
    var capped := Capped(joined, AtLeastOne(maxClusters));
    var out := Flatten(Clusters(commits, maxClusters, window));
    SortIsStable(commits);
    TimeGroupsTile(sorted, window);
    JoinedTile(TimeGroups(sorted, window), window);
    ClustersKeepEverything(commits, maxClusters, window);
    forall date
      ensures SameAt(out, sorted, date)
    {
      SortedEachKeepsDates(capped, date);
      CappedKeepsDates(joined, AtLeastOne(maxClusters), window, date);
    }
    StableOrderIsUnique(out, sorted);
  }

  // Two commits of one date that share no file.
  const FIRST := Commit("a", 0, {"x"})
  const SECOND := Commit("b", 0, {"y"})

  lemma TwinsAreSplit(window: real)
    requires window < 0.0
    ensures Joined(TimeGroups([FIRST, SECOND], window)) == [[FIRST], [SECOND]]
  {
    var commits, groups := [FIRST, SECOND], [[FIRST], [SECOND]];
    assert commits[..1] == [FIRST];
    assert TimeGroups(commits, window) == groups;
    assert groups[..1] == [[FIRST]];
    assert Files([FIRST]) == {"x"} && Files([SECOND]) == {"y"};
    assert Jaccard({"x"}, {"y"}) <= OVERLAP by {
      assert {"x"} * {"y"} == {};
    }
  }

  lemma TwinsAreSwapped()
    ensures Capped([[FIRST], [SECOND]], 1) == [[SECOND, FIRST]]
  {
    var groups := [[FIRST], [SECOND]];
    assert |groups[0]| == 1 && |groups[1]| == 1;
    assert Smallest(groups) == 0;
    assert CapStep(groups) == [[SECOND] + [FIRST]] + [];
    assert [SECOND] + [FIRST] == [SECOND, FIRST];
    assert Capped(CapStep(groups), 1) == CapStep(groups);
  }

  lemma TwinsStaySwapped()
    ensures SortByDate([FIRST, SECOND]) == [FIRST, SECOND]
    ensures Flatten(SortedEach([[SECOND, FIRST]])) == [SECOND, FIRST]
  {
    SortedStays([FIRST, SECOND]);
    SortedStays([SECOND, FIRST]);
    assert SortedEach([[SECOND, FIRST]]) == [[SECOND, FIRST]];
    FlattenSnoc([], [SECOND, FIRST]);
  }

  /** A negative window puts two commits of one date in two groups, and the cap then swaps them. */
  lemma NegativeWindowSwaps(window: real)
    requires window < 0.0
    ensures SortByDate([FIRST, SECOND]) == [FIRST, SECOND]
    ensures Flatten(Clusters([FIRST, SECOND], 1, window)) == [SECOND, FIRST]
  {
    TwinsStaySwapped();
    TwinsAreSplit(window);
    TwinsAreSwapped();
  }

  /** Exactly the non-negative windows keep the stable order, over all inputs and caps. */
  lemma TilesExactlyForNonNegativeWindows(window: real)
    ensures (forall commits, maxClusters ::
               Flatten(Clusters(commits, maxClusters, window)) == SortByDate(commits))
       <==> window >= 0.0
  {
    if window >= 0.0 {
      forall commits, maxClusters
        ensures Flatten(Clusters(commits, maxClusters, window)) == SortByDate(commits)
      {
        ClustersTile(commits, maxClusters, window);
      }
    } else {
      NegativeWindowSwaps(window);
      assert [FIRST, SECOND][0] != [SECOND, FIRST][0];
    }
  }
}
