/** Where a stable sort puts each element: behind the ones with larger keys, and
  * behind the ones with an equal key that came before it.
  *
  * The lemmas count both kinds in the sequence as it was given, so that a place
  * in the sorted one can be read off the input.
  */
module StableRank {
  import opened Common
  import opened StableSort

  function CountAbove<T>(s: seq<T>, key: T -> real, bound: real): nat
    decreases |s|
  {
    if s == [] then 0
    else CountAbove(s[..|s| - 1], key, bound) + (if key(s[|s| - 1]) > bound then 1 else 0)
  }

  function CountTies<T>(s: seq<T>, key: T -> real, bound: real): nat
    decreases |s|
  {
    if s == [] then 0
    else CountTies(s[..|s| - 1], key, bound) + (if key(s[|s| - 1]) == bound then 1 else 0)
  }

  function RankIn<T>(s: seq<T>, key: T -> real, i: nat): nat
    requires i < |s|
  {
    CountAbove(s, key, key(s[i])) + CountTies(s[..i], key, key(s[i]))
  }

  lemma CountSnoc<T>(s: seq<T>, x: T, key: T -> real, bound: real)
    ensures CountAbove(s + [x], key, bound) == CountAbove(s, key, bound) + (if key(x) > bound then 1 else 0)
    ensures CountTies(s + [x], key, bound) == CountTies(s, key, bound) + (if key(x) == bound then 1 else 0)
  {
    assert (s + [x])[..|s|] == s;
  }

  lemma {:induction false} CountInsert<T>(sorted: seq<T>, x: T, key: T -> real, bound: real)
    ensures CountAbove(Insert(sorted, x, key), key, bound)
         == CountAbove(sorted, key, bound) + (if key(x) > bound then 1 else 0)
    ensures CountTies(Insert(sorted, x, key), key, bound)
         == CountTies(sorted, key, bound) + (if key(x) == bound then 1 else 0)
    decreases |sorted|
  {
    var n := |sorted| - 1;
    if n < 0 || key(sorted[n]) >= key(x) {
      CountSnoc(sorted, x, key, bound);
    } else {
      CountInsert(sorted[..n], x, key, bound);
      CountSnoc(Insert(sorted[..n], x, key), sorted[n], key, bound);
      CountSnoc(sorted[..n], sorted[n], key, bound);
      assert sorted == sorted[..n] + [sorted[n]];
    }
  }

  lemma CountInserted<T>(init: seq<T>, sorted: seq<T>, x: T, key: T -> real, bound: real)
    requires CountAbove(sorted, key, bound) == CountAbove(init, key, bound)
    requires CountTies(sorted, key, bound) == CountTies(init, key, bound)
    ensures CountAbove(Insert(sorted, x, key), key, bound) == CountAbove(init + [x], key, bound)
    ensures CountTies(Insert(sorted, x, key), key, bound) == CountTies(init + [x], key, bound)
  {
    CountInsert(sorted, x, key, bound);
    CountSnoc(init, x, key, bound);
  }

  lemma SortSnoc<T>(init: seq<T>, x: T, key: T -> real)
    ensures Sort(init + [x], key) == Insert(Sort(init, key), x, key)
  {
    assert (init + [x])[..|init|] == init;
  }

  lemma {:induction false} CountSort<T>(s: seq<T>, key: T -> real, bound: real)
    ensures CountAbove(Sort(s, key), key, bound) == CountAbove(s, key, bound)
    ensures CountTies(Sort(s, key), key, bound) == CountTies(s, key, bound)
    decreases |s|
  {
    if s != [] {
      var init, x := s[..|s| - 1], s[|s| - 1];
      assert s == init + [x];
      CountSort(init, key, bound);
      CountInserted(init, Sort(init, key), x, key, bound);
      SortSnoc(init, x, key);
    }
  }

  // The place of `x` in a sorted sequence: the elements before it are not smaller, those behind it are.
  lemma {:induction false} InsertSplits<T>(sorted: seq<T>, x: T, key: T -> real) returns (p: nat)
    requires NonIncreasing(sorted, key)
    ensures p <= |sorted| && Insert(sorted, x, key) == sorted[..p] + [x] + sorted[p..]
    ensures forall j :: 0 <= j < |sorted| ==> (key(sorted[j]) >= key(x) <==> j < p)
    decreases |sorted|
  {
    var n := |sorted| - 1;
    if n < 0 || key(sorted[n]) >= key(x) {
      p := |sorted|;
      assert sorted[..p] == sorted && sorted[p..] == [];
    } else {
      var init := sorted[..n];
      p := InsertSplits(init, x, key);
      assert init[..p] == sorted[..p] && init[p..] + [sorted[n]] == sorted[p..];
      assert (init[..p] + [x] + init[p..]) + [sorted[n]] == init[..p] + [x] + (init[p..] + [sorted[n]]);
    }
  }

  lemma {:induction false} CountOfSplit<T>(s: seq<T>, key: T -> real, bound: real, p: nat)
    requires p <= |s| && forall j :: 0 <= j < |s| ==> (key(s[j]) >= bound <==> j < p)
    ensures CountAbove(s, key, bound) + CountTies(s, key, bound) == p
    decreases |s|
  {
    if s != [] {
      var n := |s| - 1;
      CountOfSplit(s[..n], key, bound, if p <= n then p else n);
    }
  }

  lemma {:induction false} CountFits<T>(s: seq<T>, key: T -> real, bound: real)
    ensures CountAbove(s, key, bound) + CountTies(s, key, bound) <= |s|
    decreases |s|
  {
    if s != [] {
      CountFits(s[..|s| - 1], key, bound);
    }
  }

  lemma RankOfEarlier<T>(s: seq<T>, key: T -> real, i: nat)
    requires i < |s| - 1
    ensures s[..|s| - 1][i] == s[i]
    ensures RankIn(s, key, i) == RankIn(s[..|s| - 1], key, i) + (if key(s[|s| - 1]) > key(s[i]) then 1 else 0)
  {
    assert s[..|s| - 1][..i] == s[..i];
  }

  lemma Shifted<T>(sorted: seq<T>, x: T, key: T -> real, p: nat, r: nat)
    requires p <= |sorted| && r < |sorted|
    requires forall j :: 0 <= j < |sorted| ==> (key(sorted[j]) >= key(x) <==> j < p)
    ensures var all := sorted[..p] + [x] + sorted[p..];
            all[if key(x) > key(sorted[r]) then r + 1 else r] == sorted[r]
  {
  }

  lemma RankOfLast<T>(s: seq<T>, key: T -> real)
    requires s != []
    ensures var x := s[|s| - 1]; RankIn(s, key, |s| - 1) == CountAbove(s[..|s| - 1], key, key(x)) + CountTies(s[..|s| - 1], key, key(x))
  {
  }

  lemma SortPutsLast<T>(init: seq<T>, x: T, key: T -> real)
    ensures var r := CountAbove(init, key, key(x)) + CountTies(init, key, key(x));
            r < |Insert(Sort(init, key), x, key)| && Insert(Sort(init, key), x, key)[r] == x
  {
    var sorted := Sort(init, key);
    SortSorts(init, key);
    var p := InsertSplits(sorted, x, key);
    CountOfSplit(sorted, key, key(x), p);
    CountSort(init, key, key(x));
  }

  lemma SortKeepsEarlier<T>(init: seq<T>, x: T, key: T -> real, r: nat)
    requires r < |Sort(init, key)|
    ensures var y := Sort(init, key)[r];
            var all := Insert(Sort(init, key), x, key);
            |all| == |Sort(init, key)| + 1 && all[if key(x) > key(y) then r + 1 else r] == y
  {
    SortSorts(init, key);
    var p := InsertSplits(Sort(init, key), x, key);
    Shifted(Sort(init, key), x, key, p, r);
  }

  lemma SortKeepsLength<T>(s: seq<T>, key: T -> real)
    ensures |Sort(s, key)| == |s|
  {
    SortSorts(s, key);
    PermutationMembers(Sort(s, key), s);
  }

  /** The i-th element of a sequence is at its rank in the sorted one. */
  lemma {:induction false} SortPutsAtRank<T>(s: seq<T>, key: T -> real, i: nat)
    requires i < |s|
    ensures |Sort(s, key)| == |s| && RankIn(s, key, i) < |s| && Sort(s, key)[RankIn(s, key, i)] == s[i]
    decreases |s|
  {
    var n := |s| - 1;
    SortKeepsLength(s, key);
    if i < n {
      SortPutsAtRank(s[..n], key, i);
      RankOfEarlier(s, key, i);
      SortKeepsEarlier(s[..n], s[n], key, RankIn(s[..n], key, i));
    } else {
      RankOfLast(s, key);
      SortPutsLast(s[..n], s[n], key);
    }
  }
}
