/** The clustering as a whole: the one result whose stages, first to last, meet their rules. */
module ClusteringWhole {
  import opened Clustering
  import opened ClusteringLaws
  import opened ClusteringGroups

  // By date, commits of one date in the order they had
  ghost predicate SortsInto(s: seq<Commit>, sorted: seq<Commit>) {
    && (forall i, j :: 0 <= i <= j < |sorted| ==> sorted[i].date <= sorted[j].date)
    && forall date :: SameAt(s, sorted, date)
  }

  lemma SortsIntoOne(s: seq<Commit>, sorted: seq<Commit>)
    ensures SortsInto(s, sorted) <==> sorted == SortByDate(s)
  {
    SortIsStable(s);
    if SortsInto(s, sorted) {
      forall date
        ensures SameAt(sorted, SortByDate(s), date)
      {
        assert SameAt(s, sorted, date) && SameAt(s, SortByDate(s), date);
      }
      StableOrderIsUnique(sorted, SortByDate(s));
    }
  }

  // ---------- the cap ----------

  predicate IsFirstSmallest(groups: seq<Group>, k: nat) {
    && k < |groups|
    && (forall i :: 0 <= i < |groups| ==> |groups[k]| <= |groups[i]|)
    && (forall i :: 0 <= i < k ==> |groups[k]| < |groups[i]|)
  }

  // The k-th group has gone to the end of its left neighbour, or of the right one when it has no left one.
  predicate GivesAway(groups: seq<Group>, k: nat, next: seq<Group>)
    requires k < |groups|
  {
    && |groups| > 1 && |next| == |groups| - 1
    && (if k == 0 then next[0] == groups[1] + groups[0] else next[k - 1] == groups[k - 1] + groups[k])
    && (forall j :: 0 <= j < k - 1 ==> next[j] == groups[j])
    && (forall j :: 0 < j && k <= j < |next| ==> next[j] == groups[j + 1])
  }

  ghost predicate MergesSmallest(groups: seq<Group>, next: seq<Group>) {
    exists k: nat :: IsFirstSmallest(groups, k) && GivesAway(groups, k, next)
  }

  lemma GivenAway(groups: seq<Group>, k: nat, a: seq<Group>, b: seq<Group>)
    requires k < |groups| && GivesAway(groups, k, a) && GivesAway(groups, k, b)
    ensures a == b
  {
    forall j | 0 <= j < |a|
      ensures a[j] == b[j]
    {
    }
  }

  lemma StepIsOne(groups: seq<Group>, next: seq<Group>)
    requires |groups| > 1
    ensures MergesSmallest(groups, next) <==> next == CapStep(groups)
  {
    var k := Smallest(groups);
    CapStepMergesTheSmallest(groups, k);
    assert IsFirstSmallest(groups, k) && GivesAway(groups, k, CapStep(groups));
    if MergesSmallest(groups, next) {
      var l: nat :| IsFirstSmallest(groups, l) && GivesAway(groups, l, next);
      SmallestIs(groups, l);
      GivenAway(groups, k, next, CapStep(groups));
    }
  }

  // One turn after another while there are more groups than the cap allows
  ghost predicate CutsDown(chain: seq<seq<Group>>, cap: int) {
    && chain != [] && |chain[|chain| - 1]| <= cap
    && forall i :: 0 <= i < |chain| - 1 ==> |chain[i]| > cap && MergesSmallest(chain[i], chain[i + 1])
  }

  lemma {:induction false} CutsDownToOne(chain: seq<seq<Group>>, cap: int)
    requires cap >= 1 && CutsDown(chain, cap)
    ensures chain[|chain| - 1] == Capped(chain[0], cap)
    decreases |chain|
  {
    if |chain| > 1 {
      var rest := chain[1..];
      assert MergesSmallest(chain[0], chain[1]);
      StepIsOne(chain[0], chain[1]);
      forall i | 0 <= i < |rest| - 1
        ensures |rest[i]| > cap && MergesSmallest(rest[i], rest[i + 1])
      {
        assert MergesSmallest(chain[i + 1], chain[i + 2]);
      }
      CutsDownToOne(rest, cap);
    }
  }

  lemma {:induction false} CapIsReached(groups: seq<Group>, cap: int) returns (chain: seq<seq<Group>>)
    requires cap >= 1
    ensures CutsDown(chain, cap) && chain[0] == groups && chain[|chain| - 1] == Capped(groups, cap)
    decreases |groups|
  {
    if |groups| <= cap {
      chain := [groups];
    } else {
      CapStepShrinks(groups);
      var rest := CapIsReached(CapStep(groups), cap);
      StepIsOne(groups, CapStep(groups));
      chain := [groups] + rest;
      forall i | 0 <= i < |chain| - 1
        ensures |chain[i]| > cap && MergesSmallest(chain[i], chain[i + 1])
      {
        if i > 0 {
          assert MergesSmallest(rest[i - 1], rest[i]);
        }
      }
    }
  }

  // ---------- all stages ----------

  ghost predicate EachSorted(groups: seq<Group>, clusters: seq<Group>) {
    |clusters| == |groups| && forall i :: 0 <= i < |groups| ==> SortsInto(groups[i], clusters[i])
  }

  ghost predicate Stages(commits: seq<Commit>, maxClusters: int, window: real, clusters: seq<Group>,
                         sorted: seq<Commit>, times: seq<Group>, runs: seq<seq<Group>>, chain: seq<seq<Group>>) {
    && SortsInto(commits, sorted)
    && CutsAtGaps(times, sorted, window)
    && CutsDown(chain, if maxClusters < 1 then 1 else maxClusters)
    && FifthRuns(runs, times, chain[0])
    && EachSorted(chain[|chain| - 1], clusters)
  }

  lemma EachSortedIsOne(groups: seq<Group>, clusters: seq<Group>)
    ensures EachSorted(groups, clusters) <==> clusters == SortedEach(groups)
  {
    if |clusters| == |groups| {
      forall i | 0 <= i < |groups|
        ensures SortsInto(groups[i], clusters[i]) <==> clusters[i] == SortedEach(groups)[i]
      {
        SortsIntoOne(groups[i], clusters[i]);
      }
    }
  }

  lemma StagesLeadTo(commits: seq<Commit>, maxClusters: int, window: real, clusters: seq<Group>,
                     sorted: seq<Commit>, times: seq<Group>, runs: seq<seq<Group>>, chain: seq<seq<Group>>)
    requires Stages(commits, maxClusters, window, clusters, sorted, times, runs, chain)
    ensures clusters == Clusters(commits, maxClusters, window)
  {
    SortsIntoOne(commits, sorted);
    TimeGroupsAreTheGapCut(sorted, window, times);
    JoinedAreTheOverlapRuns(times, chain[0]);
    CutsDownToOne(chain, if maxClusters < 1 then 1 else maxClusters);
    EachSortedIsOne(chain[|chain| - 1], clusters);
  }

  /** The clusters are the one result of the stages: the commits sorted by date and stably, cut at exactly the
    * gaps above the window, joined in the runs that overlap by more than a fifth, the first of the smallest
    * merged into its neighbour while there are more than the cap, and each cluster sorted again. */
  lemma ClustersAreTheStages(commits: seq<Commit>, maxClusters: int, window: real, clusters: seq<Group>)
    ensures clusters == Clusters(commits, maxClusters, window)
       <==> exists sorted, times, runs, chain :: Stages(commits, maxClusters, window, clusters, sorted, times, runs, chain)
  {
    if clusters == Clusters(commits, maxClusters, window) {
      var sorted := SortByDate(commits);
      var times := TimeGroups(sorted, window);
      var cap := if maxClusters < 1 then 1 else maxClusters;
      var chain := CapIsReached(Joined(times), cap);
      SortsIntoOne(commits, sorted);
      TimeGroupsAreTheGapCut(sorted, window, times);
      JoinedAreTheOverlapRuns(times, Joined(times));
      var runs :| FifthRuns(runs, times, Joined(times));
      EachSortedIsOne(chain[|chain| - 1], clusters);
      assert Stages(commits, maxClusters, window, clusters, sorted, times, runs, chain);
    }
    if exists sorted, times, runs, chain :: Stages(commits, maxClusters, window, clusters, sorted, times, runs, chain) {
      var sorted, times, runs, chain :| Stages(commits, maxClusters, window, clusters, sorted, times, runs, chain);
      StagesLeadTo(commits, maxClusters, window, clusters, sorted, times, runs, chain);
    }
  }
}
