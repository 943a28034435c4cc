/** The two grouping passes, each by the one split that meets its rule: the cut at the gaps above the
  * window, and the runs in which every group overlaps what the run joined before it by more than a fifth
  * of the files. */
module ClusteringGroups {
  import opened Clustering
  import opened ClusteringLaws

  // Neighbours inside a group are at most the window apart.
  predicate Tight(g: Group, window: real) {
    g != [] && forall i :: 0 <= i < |g| - 1 ==> !Further(g[i], g[i + 1], window)
  }

  predicate ApartByGap(a: Group, b: Group, window: real)
    requires a != [] && b != []
  {
    Further(a[|a| - 1], b[0], window)
  }

  // `s` cut at exactly the gaps above the window.
  predicate CutsAtGaps(groups: seq<Group>, s: seq<Commit>, window: real) {
    && Flatten(groups) == s
    && (forall i :: 0 <= i < |groups| ==> Tight(groups[i], window))
    && (forall i :: 0 <= i < |groups| - 1 ==> ApartByGap(groups[i], groups[i + 1], window))
  }

  lemma LastOf(groups: seq<Group>)
    requires groups != [] && groups[|groups| - 1] != []
    ensures var g := groups[|groups| - 1];
            Flatten(groups) != [] && Flatten(groups)[|Flatten(groups)| - 1] == g[|g| - 1]
  {
  }

  lemma {:induction false} PartsFit<T>(parts: seq<seq<T>>)
    requires forall i :: 0 <= i < |parts| ==> parts[i] != []
    ensures |parts| <= |Flatten(parts)|
    decreases |parts|
  {
    if parts != [] {
      PartsFit(parts[..|parts| - 1]);
    }
  }

  lemma FlattenOne<T>(x: seq<T>)
    ensures Flatten([x]) == x
  {
    assert [x][..0] == [] && Flatten<T>([]) == [];
  }

  // One more commit, close to the last one or not
  lemma CutAlone(groups: seq<Group>, s: seq<Commit>, c: Commit, window: real)
    requires CutsAtGaps(groups, s, window) && groups != [] && s != [] && Further(s[|s| - 1], c, window)
    ensures CutsAtGaps(groups + [[c]], s + [c], window)
  {
    FlattenSnoc(groups, [c]);
    LastOf(groups);
  }

  lemma CutWithLast(groups: seq<Group>, s: seq<Commit>, c: Commit, window: real)
    requires CutsAtGaps(groups, s, window) && groups != [] && s != [] && !Further(s[|s| - 1], c, window)
    ensures CutsAtGaps(AddToLast(groups, [c]), s + [c], window)
  {
    var init, g := groups[..|groups| - 1], groups[|groups| - 1];
    FlattenSnoc(init, g + [c]);
    LastOf(groups);
    assert Flatten(init) + (g + [c]) == (Flatten(init) + g) + [c];
  }

  lemma {:induction false} TimeGroupsCut(s: seq<Commit>, window: real)
    ensures CutsAtGaps(TimeGroups(s, window), s, window)
    decreases |s|
  {
    var n := |s| - 1;
    if n == 0 {
      FlattenSnoc([], s);
      assert [] + [s] == [s];
    } else if n > 0 {
      TimeGroupsCut(s[..n], window);
      assert s == s[..n] + [s[n]];
      if Further(s[n - 1], s[n], window) {
        CutAlone(TimeGroups(s[..n], window), s[..n], s[n], window);
      } else {
        CutWithLast(TimeGroups(s[..n], window), s[..n], s[n], window);
      }
    }
  }

  // A cut of more than one commit, without its last commit
  function DropLast(groups: seq<Group>): seq<Group>
    requires groups != [] && groups[|groups| - 1] != []
  {
    var init, g := groups[..|groups| - 1], groups[|groups| - 1];
    if |g| == 1 then init else init + [g[..|g| - 1]]
  }

  lemma DropLastCuts(groups: seq<Group>, s: seq<Commit>, window: real)
    requires CutsAtGaps(groups, s, window) && groups != []
    ensures s != [] && CutsAtGaps(DropLast(groups), s[..|s| - 1], window)
  {
    var init, g := groups[..|groups| - 1], groups[|groups| - 1];
    assert Flatten(groups) == Flatten(init) + g;
    if |g| == 1 {
      assert Flatten(init) == s[..|s| - 1];
    } else {
      var front := g[..|g| - 1];
      FlattenSnoc(init, front);
      assert Flatten(init) + front == s[..|s| - 1];
      assert Tight(front, window);
    }
  }

  lemma PutBack(groups: seq<Group>, s: seq<Commit>, window: real)
    requires CutsAtGaps(groups, s, window) && groups != [] && |s| > 1
    ensures var n := |s| - 1;
            && DropLast(groups) != []
            && groups == if Further(s[n - 1], s[n], window) then DropLast(groups) + [[s[n]]]
                         else AddToLast(DropLast(groups), [s[n]])
  {
    var n := |s| - 1;
    var init, g := groups[..|groups| - 1], groups[|groups| - 1];
    LastOf(groups);
    assert groups == init + [g];
    if |g| == 1 {
      assert init != [] by {
        assert init == [] ==> Flatten(groups) == [] + g;
      }
      assert g == [s[n]];
      assert Flatten(init) == s[..n];
      LastOf(init);
      assert ApartByGap(groups[|init| - 1], groups[|init|], window);
    } else {
      var front := g[..|g| - 1];
      assert g == front + [s[n]];
      assert Flatten(groups)[n - 1] == g[|g| - 2];
      assert !Further(g[|g| - 2], g[|g| - 2 + 1], window);
      assert DropLast(groups)[..|groups| - 1] == init;
    }
  }

  lemma {:induction false} OnlyOneCut(groups: seq<Group>, s: seq<Commit>, window: real)
    requires CutsAtGaps(groups, s, window)
    ensures groups == TimeGroups(s, window)
    decreases |s|
  {
    if groups == [] {
      assert s == [];
    } else {
      var n := |s| - 1;
      DropLastCuts(groups, s, window);
      OnlyOneCut(DropLast(groups), s[..n], window);
      if n > 0 {
        PutBack(groups, s, window);
      } else {
        OneCommit(groups, s, window);
      }
    }
  }

  lemma OneCommit(groups: seq<Group>, s: seq<Commit>, window: real)
    requires CutsAtGaps(groups, s, window) && groups != [] && |s| == 1
    ensures groups == [s]
  {
    PartsFit(groups);
    FlattenOne(groups[0]);
    assert groups == [groups[0]];
  }

  /** The time groups are the one way to cut the sequence so that neighbours inside a group are at most the
    * window apart, and the neighbours across a cut further. */
  lemma TimeGroupsAreTheGapCut(s: seq<Commit>, window: real, groups: seq<Group>)
    ensures groups == TimeGroups(s, window) <==> CutsAtGaps(groups, s, window)
  {
    TimeGroupsCut(s, window);
    if CutsAtGaps(groups, s, window) {
      OnlyOneCut(groups, s, window);
    }
  }

  // ---------- joining by overlap ----------

  // The condition of the loop; what it means for the files is for the theorem below.
  predicate Joins(a: Group, b: Group) {
    Jaccard(Files(a), Files(b)) > OVERLAP
  }

  // Every group of the run overlaps all that comes before it.
  predicate Chain(run: seq<Group>) {
    run != [] && forall i :: 0 < i < |run| ==> Joins(Flatten(run[..i]), run[i])
  }

  // The groups cut into runs: within a run each joins, and what opens the next run does not.
  predicate JoinsRuns(runs: seq<seq<Group>>, groups: seq<Group>, merged: seq<Group>) {
    && Flatten(runs) == groups && |merged| == |runs|
    && (forall i :: 0 <= i < |runs| ==> Chain(runs[i]) && merged[i] == Flatten(runs[i]))
    && (forall i :: 0 <= i < |runs| - 1 ==> !Joins(merged[i], runs[i + 1][0]))
  }

  lemma ChainSnoc(run: seq<Group>, g: Group)
    requires Chain(run) && Joins(Flatten(run), g)
    ensures Chain(run + [g]) && Flatten(run + [g]) == Flatten(run) + g
  {
    var longer := run + [g];
    FlattenSnoc(run, g);
    forall i | 0 < i < |longer|
      ensures Joins(Flatten(longer[..i]), longer[i])
    {
      assert longer[..i] == run[..i];
      if i == |run| {
        assert run[..i] == run;
      }
    }
  }

  lemma RunOpens(runs: seq<seq<Group>>, groups: seq<Group>, merged: seq<Group>, g: Group)
    requires JoinsRuns(runs, groups, merged) && merged != [] && !Joins(merged[|merged| - 1], g)
    ensures JoinsRuns(runs + [[g]], groups + [g], merged + [g])
  {
    FlattenSnoc(runs, [g]);
    FlattenOne(g);
  }

  // Another last run that opens with the same group
  lemma LastRunChanges(runs: seq<seq<Group>>, groups: seq<Group>, merged: seq<Group>, run: seq<Group>)
    requires JoinsRuns(runs, groups, merged) && runs != []
    requires Chain(run) && runs[|runs| - 1] != [] && run[0] == runs[|runs| - 1][0]
    ensures var k := |runs| - 1;
            JoinsRuns(runs[..k] + [run], Flatten(runs[..k]) + run, merged[..k] + [Flatten(run)])
  {
    var k := |runs| - 1;
    var newRuns, newMerged := runs[..k] + [run], merged[..k] + [Flatten(run)];
    FlattenSnoc(runs[..k], run);
    forall i | 0 <= i < |newRuns|
      ensures Chain(newRuns[i]) && newMerged[i] == Flatten(newRuns[i])
    {
      if i < k {
        assert newRuns[i] == runs[i] && newMerged[i] == merged[i];
      }
    }
    forall i | 0 <= i < |newRuns| - 1
      ensures !Joins(newMerged[i], newRuns[i + 1][0])
    {
      assert newMerged[i] == merged[i] && newRuns[i + 1][0] == runs[i + 1][0];
    }
  }

  lemma RunGrows(runs: seq<seq<Group>>, groups: seq<Group>, merged: seq<Group>, g: Group)
    requires JoinsRuns(runs, groups, merged) && merged != [] && Joins(merged[|merged| - 1], g)
    ensures var k := |runs| - 1;
            JoinsRuns(runs[..k] + [runs[k] + [g]], groups + [g], AddToLast(merged, g))
  {
    var k := |runs| - 1;
    assert Chain(runs[k]) && merged[k] == Flatten(runs[k]);
    ChainSnoc(runs[k], g);
    LastRunChanges(runs, groups, merged, runs[k] + [g]);
    assert Flatten(runs[..k]) + (runs[k] + [g]) == (Flatten(runs[..k]) + runs[k]) + [g];
  }

  lemma OneRun(g: Group)
    ensures JoinsRuns([[g]], [g], [g])
  {
    FlattenOne([g]);
    FlattenOne(g);
  }

  lemma RunsWithNext(earlier: seq<seq<Group>>, groups: seq<Group>, merged: seq<Group>, g: Group)
    returns (runs: seq<seq<Group>>)
    requires JoinsRuns(earlier, groups, merged) && merged != []
    ensures JoinsRuns(runs, groups + [g], JoinNext(merged, g))
  {
    if Joins(merged[|merged| - 1], g) {
      RunGrows(earlier, groups, merged, g);
      runs := earlier[..|earlier| - 1] + [earlier[|earlier| - 1] + [g]];
    } else {
      RunOpens(earlier, groups, merged, g);
      runs := earlier + [[g]];
    }
  }

  lemma NoRuns()
    ensures JoinsRuns([], [], [])
  {
  }

  lemma JoinedStep(earlier: seq<seq<Group>>, init: seq<Group>, g: Group) returns (runs: seq<seq<Group>>)
    requires JoinsRuns(earlier, init, Joined(init)) && init != []
    ensures JoinsRuns(runs, init + [g], Joined(init + [g]))
  {
    runs := RunsWithNext(earlier, init, Joined(init), g);
    JoinedSnoc(init, g);
  }

  lemma {:induction false} JoinedRuns(groups: seq<Group>) returns (runs: seq<seq<Group>>)
    ensures JoinsRuns(runs, groups, Joined(groups))
    decreases |groups|
  {
    var n := |groups| - 1;
    if n < 0 {
      runs := [];
      NoRuns();
      assert groups == [];
    } else if n == 0 {
      runs := [groups];
      assert groups == [groups[0]];
      OneRun(groups[0]);
    } else {
      var earlier := JoinedRuns(groups[..n]);
      assert groups == groups[..n] + [groups[n]];
      runs := JoinedStep(earlier, groups[..n], groups[n]);
    }
  }

  lemma LastRun(runs: seq<seq<Group>>, groups: seq<Group>, merged: seq<Group>)
    requires JoinsRuns(runs, groups, merged) && groups != []
    ensures runs != [] && runs[|runs| - 1] != []
    ensures var run := runs[|runs| - 1]; run[|run| - 1] == groups[|groups| - 1]
  {
    var k := |runs| - 1;
    assert k >= 0 ==> Chain(runs[k]) && Flatten(runs) == Flatten(runs[..k]) + runs[k];
  }

  // The last group was a run of its own, or closed a longer one.
  lemma RunCloses(runs: seq<seq<Group>>, groups: seq<Group>, merged: seq<Group>)
    requires JoinsRuns(runs, groups, merged) && |groups| > 1 && runs != [] && |runs[|runs| - 1]| == 1
    ensures var k, n := |runs| - 1, |groups| - 1;
            && k > 0 && JoinsRuns(runs[..k], groups[..n], merged[..k])
            && !Joins(merged[k - 1], groups[n]) && merged == merged[..k] + [groups[n]]
  {
    var k, n := |runs| - 1, |groups| - 1;
    LastRun(runs, groups, merged);
    assert Flatten(runs) == Flatten(runs[..k]) + runs[k];
    assert runs[k] == [groups[n]];
    FlattenOne(groups[n]);
    assert Flatten(runs[..k]) == groups[..n];
    assert k > 0 ==> !Joins(merged[k - 1], runs[k - 1 + 1][0]);
  }

  lemma Overlapping(run: seq<Group>, i: nat)
    requires Chain(run) && 0 < i < |run|
    ensures Joins(Flatten(run[..i]), run[i])
  {
  }

  lemma ChainPrefix(run: seq<Group>, m: nat)
    requires Chain(run) && 0 < m <= |run|
    ensures Chain(run[..m])
  {
    forall i | 0 < i < m
      ensures Joins(Flatten(run[..m][..i]), run[..m][i])
    {
      Overlapping(run, i);
      assert run[..m][..i] == run[..i];
    }
  }

  lemma ChainInit(run: seq<Group>)
    requires Chain(run) && |run| > 1
    ensures var m := |run| - 1;
            Chain(run[..m]) && Joins(Flatten(run[..m]), run[m]) && Flatten(run) == Flatten(run[..m]) + run[m]
  {
    ChainPrefix(run, |run| - 1);
    Overlapping(run, |run| - 1);
  }

  // A longer last run, without its last group
  lemma RunShrinks(runs: seq<seq<Group>>, groups: seq<Group>, merged: seq<Group>)
    requires JoinsRuns(runs, groups, merged) && groups != [] && runs != [] && |runs[|runs| - 1]| > 1
    ensures var k := |runs| - 1;
            var front := runs[k][..|runs[k]| - 1];
            JoinsRuns(runs[..k] + [front], groups[..|groups| - 1], merged[..k] + [Flatten(front)])
  {
    var k := |runs| - 1;
    var front := runs[k][..|runs[k]| - 1];
    ChainInit(runs[k]);
    LastRunChanges(runs, groups, merged, front);
    WithoutLast(Flatten(runs[..k]), runs[k], groups);
  }

  lemma LastMerged(runs: seq<seq<Group>>, groups: seq<Group>, merged: seq<Group>)
    requires JoinsRuns(runs, groups, merged) && runs != []
    ensures var k := |runs| - 1; Chain(runs[k]) && merged == merged[..k] + [Flatten(runs[k])]
  {
    var k := |runs| - 1;
    assert Chain(runs[k]) && merged[k] == Flatten(runs[k]);
    assert merged == merged[..k] + [merged[k]];
  }

  lemma RunEnds(runs: seq<seq<Group>>, groups: seq<Group>, merged: seq<Group>)
    requires JoinsRuns(runs, groups, merged) && groups != [] && runs != [] && |runs[|runs| - 1]| > 1
    ensures var k, n := |runs| - 1, |groups| - 1;
            var front := runs[k][..|runs[k]| - 1];
            Joins(Flatten(front), groups[n]) && merged == merged[..k] + [Flatten(front) + groups[n]]
  {
    LastRun(runs, groups, merged);
    LastMerged(runs, groups, merged);
    ChainInit(runs[|runs| - 1]);
  }

  lemma WithoutLast<T>(a: seq<T>, b: seq<T>, whole: seq<T>)
    requires whole == a + b && b != []
    ensures a + b[..|b| - 1] == whole[..|whole| - 1]
  {
  }

  lemma {:induction false} OnlyOneJoin(runs: seq<seq<Group>>, groups: seq<Group>, merged: seq<Group>)
    requires JoinsRuns(runs, groups, merged)
    ensures merged == Joined(groups)
    decreases |groups|
  {
    var k, n := |runs| - 1, |groups| - 1;
    PartsFit(runs);
    if n < 0 {
      assert runs == [];
    } else {
      LastRun(runs, groups, merged);
      if |runs[k]| > 1 {
        var front := runs[k][..|runs[k]| - 1];
        RunShrinks(runs, groups, merged);
        RunEnds(runs, groups, merged);
        OnlyOneJoin(runs[..k] + [front], groups[..n], merged[..k] + [Flatten(front)]);
      } else if n > 0 {
        RunCloses(runs, groups, merged);
        OnlyOneJoin(runs[..k], groups[..n], merged[..k]);
      } else {
        OneGroup(runs, groups, merged);
      }
    }
  }

  lemma OneGroup(runs: seq<seq<Group>>, groups: seq<Group>, merged: seq<Group>)
    requires JoinsRuns(runs, groups, merged) && |groups| == 1 && |runs| == 1
    ensures merged == groups
  {
    FlattenOne(runs[0]);
    FlattenOne(groups[0]);
    assert runs == [runs[0]] && runs[0] == groups == [groups[0]];
    assert Chain(runs[0]) && merged[0] == Flatten(runs[0]);
  }

  // The same in terms of the files: every group of a run shares more than a fifth with what the run joined
  // before it, and the group that opens the next run does not.
  predicate SharesAFifth(run: seq<Group>) {
    run != [] && forall i :: 0 < i < |run| ==> Overlaps(Flatten(run[..i]), run[i])
  }

  predicate FifthRuns(runs: seq<seq<Group>>, groups: seq<Group>, merged: seq<Group>) {
    && Flatten(runs) == groups && |merged| == |runs|
    && (forall i :: 0 <= i < |runs| ==> SharesAFifth(runs[i]) && merged[i] == Flatten(runs[i]))
    && (forall i :: 0 <= i < |runs| - 1 ==> !Overlaps(merged[i], runs[i + 1][0]))
  }

  lemma JoinsMeansOverlaps(a: Group, b: Group)
    ensures Joins(a, b) <==> Overlaps(a, b)
  {
    JoinsByAFifth(a, b);
  }

  lemma ChainsShareAFifth(run: seq<Group>)
    ensures Chain(run) <==> SharesAFifth(run)
  {
    forall i | 0 < i < |run|
      ensures Joins(Flatten(run[..i]), run[i]) <==> Overlaps(Flatten(run[..i]), run[i])
    {
      JoinsMeansOverlaps(Flatten(run[..i]), run[i]);
    }
  }

  lemma RunsAreFifthRuns(runs: seq<seq<Group>>, groups: seq<Group>, merged: seq<Group>)
    ensures JoinsRuns(runs, groups, merged) <==> FifthRuns(runs, groups, merged)
  {
    forall i | 0 <= i < |runs|
      ensures Chain(runs[i]) <==> SharesAFifth(runs[i])
    {
      ChainsShareAFifth(runs[i]);
    }
    if |merged| == |runs| && forall i :: 0 <= i < |runs| ==> runs[i] != [] {
      forall i | 0 <= i < |runs| - 1
        ensures Joins(merged[i], runs[i + 1][0]) <==> Overlaps(merged[i], runs[i + 1][0])
      {
        JoinsMeansOverlaps(merged[i], runs[i + 1][0]);
      }
    }
  }

  /** The merged groups are the one way to join the time groups in runs so that each group of a run shares
    * more than a fifth of the files with all that the run joined before it, and the group that opens the
    * next run does not. */
  lemma JoinedAreTheOverlapRuns(groups: seq<Group>, merged: seq<Group>)
    ensures merged == Joined(groups) <==> exists runs :: FifthRuns(runs, groups, merged)
  {
    var runs := JoinedRuns(groups);
    RunsAreFifthRuns(runs, groups, Joined(groups));
    assert FifthRuns(runs, groups, Joined(groups));
    if exists others :: FifthRuns(others, groups, merged) {
      var others :| FifthRuns(others, groups, merged);
      RunsAreFifthRuns(others, groups, merged);
      OnlyOneJoin(others, groups, merged);
    }
  }

  // ---------- the cap ----------

  lemma SmallestIs(groups: seq<Group>, k: nat)
    requires k < |groups|
    requires forall i :: 0 <= i < |groups| ==> |groups[k]| <= |groups[i]|
    requires forall i :: 0 <= i < k ==> |groups[k]| < |groups[i]|
    ensures Smallest(groups) == k
  {
  }

  /** A turn of the cap loop moves the first of the smallest groups to the end of its left neighbour, or of
    * the right one when it has no left one, and changes no other group. */
  lemma CapStepMergesTheSmallest(groups: seq<Group>, k: nat)
    requires |groups| > 1 && k < |groups|
    requires forall i :: 0 <= i < |groups| ==> |groups[k]| <= |groups[i]|
    requires forall i :: 0 <= i < k ==> |groups[k]| < |groups[i]|
    ensures var next := CapStep(groups);
            && |next| == |groups| - 1
            && (k == 0 ==> next[0] == groups[1] + groups[0])
            && (k > 0 ==> next[k - 1] == groups[k - 1] + groups[k])
            && (forall j :: 0 <= j < k - 1 ==> next[j] == groups[j])
            && (forall j :: 0 < j && k <= j < |next| ==> next[j] == groups[j + 1])
  {
    SmallestIs(groups, k);
  }
}
