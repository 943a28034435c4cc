/** The stable sort by a key, largest first: what `sorted` and `list.sort` do with `reverse=True`.

Elements with equal keys keep their order. The lemmas say what every user of the sort needs: it is a
permutation in non-increasing order, it leaves alone what is in order and what leads, and the first
elements of the result are the largest.
*/
module StableSort {
  import opened Common

  predicate NonIncreasing<T>(s: seq<T>, key: T -> real) {
    forall i, j :: 0 <= i <= j < |s| ==> key(s[i]) >= key(s[j])
  }

  /** Put `x` after everything that is not smaller. */
  function Insert<T>(sorted: seq<T>, x: T, key: T -> real): seq<T>
    decreases |sorted|
  {
    var n := |sorted| - 1;
    if n < 0 || key(sorted[n]) >= key(x) then sorted + [x] else Insert(sorted[..n], x, key) + [sorted[n]]
  }

  function Sort<T>(s: seq<T>, key: T -> real): seq<T>
    decreases |s|
  {
    if s == [] then [] else Insert(Sort(s[..|s| - 1], key), s[|s| - 1], key)
  }

  lemma AtLeast<T>(front: seq<T>, init: seq<T>, x: T, key: T -> real, bound: real)
    requires multiset(front) == multiset(init) + multiset{x}
    requires key(x) >= bound && forall y :: y in init ==> key(y) >= bound
    ensures forall i :: 0 <= i < |front| ==> key(front[i]) >= bound
  {
    forall i | 0 <= i < |front|
      ensures key(front[i]) >= bound
    {
      assert front[i] in multiset(front);
    }
  }

  lemma SnocSorts<T>(front: seq<T>, last: T, key: T -> real)
    requires NonIncreasing(front, key) && forall i :: 0 <= i < |front| ==> key(front[i]) >= key(last)
    ensures NonIncreasing(front + [last], key)
  {
  }

  lemma {:induction false} InsertSorts<T>(sorted: seq<T>, x: T, key: T -> real)
    requires NonIncreasing(sorted, key)
    ensures NonIncreasing(Insert(sorted, x, key), key)
    ensures multiset(Insert(sorted, x, key)) == multiset(sorted) + multiset{x}
    decreases |sorted|
  {
    var n := |sorted| - 1;
    if !(n < 0 || key(sorted[n]) >= key(x)) {
      InsertSorts(sorted[..n], x, key);
      InsertBeforeLast(sorted[..n], Insert(sorted[..n], x, key), sorted[n], x, key);
      assert sorted == sorted[..n] + [sorted[n]];
    }
  }

  lemma InsertBeforeLast<T>(init: seq<T>, front: seq<T>, last: T, x: T, key: T -> real)
    requires NonIncreasing(init + [last], key) && NonIncreasing(front, key)
    requires multiset(front) == multiset(init) + multiset{x} && key(x) > key(last)
    ensures NonIncreasing(front + [last], key) && multiset(front + [last]) == multiset(init + [last]) + multiset{x}
  {
    var all := init + [last];
    forall y | y in init
      ensures key(y) >= key(last)
    {
      var i :| 0 <= i < |init| && init[i] == y;
      assert all[i] == y && all[|init|] == last;
    }
    AtLeast(front, init, x, key, key(last));
    SnocSorts(front, last, key);
  }

  /** The result is in order and a permutation. */
  lemma {:induction false} SortSorts<T>(s: seq<T>, key: T -> real)
    ensures NonIncreasing(Sort(s, key), key) && multiset(Sort(s, key)) == multiset(s)
    decreases |s|
  {
    if s != [] {
      var n := |s| - 1;
      SortSorts(s[..n], key);
      InsertSorts(Sort(s[..n], key), s[n], key);
      assert s == s[..n] + [s[n]];
    }
  }

  lemma InsertAtEnd<T>(sorted: seq<T>, x: T, key: T -> real)
    requires sorted == [] || key(sorted[|sorted| - 1]) >= key(x)
    ensures Insert(sorted, x, key) == sorted + [x]
  {
  }

  lemma LastIsSmallest<T>(s: seq<T>, key: T -> real)
    requires s != [] && NonIncreasing(s, key)
    ensures s[..|s| - 1] + [s[|s| - 1]] == s
    ensures |s| > 1 ==> key(s[..|s| - 1][|s| - 2]) >= key(s[|s| - 1])
  {
  }

  /** What is in order already stays as it is. */
  lemma {:induction false} SortedStays<T>(s: seq<T>, key: T -> real)
    requires NonIncreasing(s, key)
    ensures Sort(s, key) == s
    decreases |s|
  {
    if s != [] {
      var init, last := s[..|s| - 1], s[|s| - 1];
      SortedStays(init, key);
      LastIsSmallest(s, key);
      InsertAtEnd(init, last, key);
    }
  }

  lemma {:induction false} InsertKeepsPrefix<T>(sorted: seq<T>, x: T, key: T -> real, p: nat)
    requires p <= |sorted| && forall i :: 0 <= i < p ==> key(sorted[i]) >= key(x)
    ensures |Insert(sorted, x, key)| == |sorted| + 1
    ensures Insert(sorted, x, key)[..p] == sorted[..p]
    decreases |sorted|
  {
    var n := |sorted| - 1;
    if !(n < 0 || key(sorted[n]) >= key(x)) {
      InsertKeepsPrefix(sorted[..n], x, key, p);
      assert sorted[..n][..p] == sorted[..p];
      assert (Insert(sorted[..n], x, key) + [sorted[n]])[..p] == Insert(sorted[..n], x, key)[..p];
    }
  }

  // The first `p` are in order, and nothing behind them is larger.
  predicate Lead<T>(s: seq<T>, key: T -> real, p: nat) {
    p <= |s| && forall i, j :: 0 <= i < p && i <= j < |s| ==> key(s[i]) >= key(s[j])
  }

  lemma LeadInit<T>(s: seq<T>, key: T -> real, p: nat)
    requires Lead(s, key, p) && p < |s|
    ensures Lead(s[..|s| - 1], key, p) && s[..|s| - 1][..p] == s[..p]
    ensures forall i :: 0 <= i < p ==> key(s[..p][i]) >= key(s[|s| - 1])
  {
  }

  lemma InsertKeepsLeaders<T>(sorted: seq<T>, x: T, key: T -> real, lead: seq<T>)
    requires |lead| <= |sorted| && sorted[..|lead|] == lead
    requires forall i :: 0 <= i < |lead| ==> key(lead[i]) >= key(x)
    ensures |Insert(sorted, x, key)| == |sorted| + 1 && Insert(sorted, x, key)[..|lead|] == lead
  {
    forall i | 0 <= i < |lead|
      ensures key(sorted[i]) >= key(x)
    {
      assert sorted[i] == lead[i];
    }
    InsertKeepsPrefix(sorted, x, key, |lead|);
  }

  /** Elements that lead, in order and with nothing larger behind them, stay in front as they were. */
  lemma {:induction false} LeadersStay<T>(s: seq<T>, key: T -> real, p: nat)
    requires Lead(s, key, p)
    ensures |Sort(s, key)| == |s| && Sort(s, key)[..p] == s[..p]
    decreases |s|
  {
    if p == |s| {
      SortedStays(s, key);
    } else {
      var n := |s| - 1;
      LeadInit(s, key, p);
      LeadersStay(s[..n], key, p);
      InsertKeepsLeaders(Sort(s[..n], key), s[n], key, s[..p]);
    }
  }

  lemma TwiceIn<T>(s: seq<T>, i: nat, j: nat)
    requires i < j < |s| && s[i] == s[j]
    ensures multiset(s)[s[i]] >= 2
  {
    assert s == s[..j] + s[j..] && s[..j][i] == s[i] && s[j..][0] == s[j];
    assert multiset(s) == multiset(s[..j]) + multiset(s[j..]);
    assert s[i] in multiset(s[..j]) && s[j] in multiset(s[j..]);
  }

  lemma OnceIn<T>(s: seq<T>, k: nat)
    requires k < |s| && Distinct(s)
    ensures multiset(s)[s[k]] == 1
  {
    assert s == s[..k] + ([s[k]] + s[k + 1..]);
    assert s[k] !in s[..k] && s[k] !in s[k + 1..];
    assert multiset(s) == multiset(s[..k]) + multiset([s[k]]) + multiset(s[k + 1..]);
  }

  /** A permutation of distinct elements repeats none. */
  lemma DistinctStays<T>(a: seq<T>, b: seq<T>)
    requires multiset(a) == multiset(b) && Distinct(a)
    ensures Distinct(b)
  {
    forall i, j | 0 <= i < j < |b|
      ensures b[i] != b[j]
    {
      if b[i] == b[j] {
        assert b[i] in multiset(a);
        var k :| 0 <= k < |a| && a[k] == b[i];
        TwiceIn(b, i, j);
        OnceIn(a, k);
        assert false;
      }
    }
  }

  lemma PermutationMembers<T>(a: seq<T>, b: seq<T>)
    requires multiset(a) == multiset(b)
    ensures |a| == |b| && forall x :: x in a <==> x in b
  {
    assert |multiset(a)| == |a| && |multiset(b)| == |b|;
    assert forall x :: x in a <==> x in multiset(a);
    assert forall x :: x in b <==> x in multiset(b);
  }

  lemma LeftOutIsNotLarger<T>(sorted: seq<T>, key: T -> real, n: nat, i: nat, x: T)
    requires NonIncreasing(sorted, key) && i < n <= |sorted|
    requires x in sorted && x !in sorted[..n]
    ensures key(sorted[i]) >= key(x)
  {
    var rest := sorted[n..];
    assert sorted == sorted[..n] + rest;
    var j :| 0 <= j < |rest| && rest[j] == x;
    assert rest[j] == sorted[n + j];
  }

  /** The first `n` of the sorted sequence: nothing left out has a larger key than anything taken. */
  lemma TakenAreLargest<T>(s: seq<T>, key: T -> real, n: nat)
    ensures var top := Take(Sort(s, key), n);
            && |top| == (if n <= |s| then n else |s|)
            && NonIncreasing(top, key)
            && (forall x | x in top :: x in s)
            && (forall i, x | 0 <= i < |top| && x in s && x !in top :: key(top[i]) >= key(x))
  {
    var sorted := Sort(s, key);
    var top := Take(sorted, n);
    SortSorts(s, key);
    PermutationMembers(sorted, s);
    assert top == sorted[..|top|];
    forall i, x | 0 <= i < |top| && x in s && x !in top
      ensures key(top[i]) >= key(x)
    {
      LeftOutIsNotLarger(sorted, key, |top|, i, x);
    }
  }
}
