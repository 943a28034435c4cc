/** Hybrid search: reciprocal rank fusion of the keyword and semantic rankings,
on one page with the floated pins. Scores are exact; the set of candidate ids
is walked in an arbitrary order. */
module Fusion {
  import opened Common
  import opened SearchStream
  import StableSort

  const RRF_K := 60

  // `keyword` and `semantic` are the two over-fetched windows; `stored` is what get_memory returns.
  datatype Query = Query(
    floated: seq<Memory>, keyword: seq<Memory>, semantic: seq<(Id, real)>, stored: map<Id, Memory>,
    includePinned: bool, tags: set<string>, project: Option<string>, topK: nat, offset: nat)

  datatype Entry = Entry(item: Memory, score: real, keywordRank: Option<nat>, semanticRank: Option<nat>, similarity: Option<real>)

  function Reciprocal(rank: Option<nat>): real {
    match rank
    case None => 0.0
    case Some(r) => 1.0 / (RRF_K + r) as real
  }

  function Score(keywordRank: Option<nat>, semanticRank: Option<nat>): real {
    Reciprocal(keywordRank) + Reciprocal(semanticRank)
  }

  // 1-based ranks, as the dict comprehensions build them.
  function Ranking(ids: seq<Id>): map<Id, nat> {
    if ids == [] then map[] else Ranking(ids[..|ids| - 1])[ids[|ids| - 1] := |ids|]
  }

  function KeywordIds(q: Query): seq<Id> {
    seq(|q.keyword|, i requires 0 <= i < |q.keyword| => q.keyword[i].id)
  }

  function SemanticIds(q: Query): seq<Id> {
    seq(|q.semantic|, i requires 0 <= i < |q.semantic| => q.semantic[i].0)
  }

  function Lookup<T>(m: map<Id, T>, id: Id): Option<T> {
    if id in m then Some(m[id]) else None
  }

  // The keyword row if there is one, otherwise what the store returns.
  function ItemOf(q: Query, id: Id): Option<Memory> {
    var ranks := Ranking(KeywordIds(q));
    if id in ranks && 1 <= ranks[id] <= |q.keyword| then Some(q.keyword[ranks[id] - 1]) else Lookup(q.stored, id)
  }

  predicate Visible(q: Query, item: Memory) {
    && !(item.pinned && (item.id in Ids(q.floated) || !q.includePinned))
    && InScope(item, q.tags, if q.project == Some("") then None else q.project)
  }

  function EntryOf(q: Query, id: Id): Option<Entry> {
    var item := ItemOf(q, id);
    if item.None? || !Visible(q, item.value) then None else
    var k, s := Lookup(Ranking(KeywordIds(q)), id), Lookup(Ranking(SemanticIds(q)), id);
    Some(Entry(item.value, Score(k, s), k, s,
               if s.Some? && 1 <= s.value <= |q.semantic| then Some(q.semantic[s.value - 1].1) else None))
  }

  function Entries(q: Query, order: seq<Id>): seq<Entry> {
    if order == [] then [] else
    var rest := Entries(q, order[..|order| - 1]);
    var e := EntryOf(q, order[|order| - 1]);
    if e.Some? then rest + [e.value] else rest
  }

  function Points(e: Entry): real {
    e.score
  }

  // `list.sort(key=score, reverse=True)`.
  function SortDescending(entries: seq<Entry>): seq<Entry> {
    StableSort.Sort(entries, Points)
  }

  function ChannelOf(e: Entry): Channel {
    if e.keywordRank.Some? && e.similarity.Some? then Hybrid
    else if e.keywordRank.Some? then Keyword
    else Semantic
  }

  function Shown(e: Entry): Scored {
    Scored(e.item, ChannelOf(e), Some(e.score), e.similarity, e.keywordRank)
  }

  function Merged(q: Query, order: seq<Id>): seq<Entry> {
    Take(SortDescending(Entries(q, order)), q.topK + q.offset)
  }

  function ShownAll(entries: seq<Entry>): seq<Scored> {
    seq(|entries|, i requires 0 <= i < |entries| => Shown(entries[i]))
  }

  function HybridPage(q: Query, order: seq<Id>): seq<Scored> {
    Slice(Floats(q.floated) + ShownAll(Merged(q, order)), q.offset, q.offset + q.topK)
  }

  method BuildRanking(ids: seq<Id>) returns (ranks: map<Id, nat>)
    ensures ranks == Ranking(ids)
  {
    ranks := map[];
    for i := 0 to |ids|
      invariant ranks == Ranking(ids[..i])
    {
      assert ids[..i + 1][..i] == ids[..i];
      ranks := ranks[ids[i] := i + 1];
    }
    assert ids[..|ids|] == ids;
  }

  /** One turn of the fusion loop: the entry of one id, unless it has no row or the filters hide it. */
  method Fuse(q: Query, id: Id, keywordRank: map<Id, nat>, semanticRank: map<Id, nat>) returns (e: Option<Entry>)
    requires keywordRank == Ranking(KeywordIds(q)) && semanticRank == Ranking(SemanticIds(q))
    ensures e == EntryOf(q, id)
  {
    var item := if id in keywordRank && 1 <= keywordRank[id] <= |q.keyword| then Some(q.keyword[keywordRank[id] - 1])
                else Lookup(q.stored, id);
    if item.None? {
      return None;
    }
    if !Visible(q, item.value) {
      return None;
    }
    var k, s := Lookup(keywordRank, id), Lookup(semanticRank, id);
    var score := 0.0;
    if k.Some? {
      score := score + 1.0 / (RRF_K + k.value) as real;
    }
    if s.Some? {
      score := score + 1.0 / (RRF_K + s.value) as real;
    }
    e := Some(Entry(item.value, score, k, s,
      if s.Some? && 1 <= s.value <= |q.semantic| then Some(q.semantic[s.value - 1].1) else None));
  }

  /** The fusion loop of hybrid search, for the order in which the set of ids happens to be walked. */
  method SearchHybrid(q: Query, order: seq<Id>) returns (page: seq<Scored>)
    ensures page == HybridPage(q, order)
  {
    var keywordRank := BuildRanking(KeywordIds(q));
    var semanticRank := BuildRanking(SemanticIds(q));
    var scores: seq<Entry> := [];
    for i := 0 to |order|
      invariant scores == Entries(q, order[..i])
    {
      assert order[..i + 1][..i] == order[..i];
      var e := Fuse(q, order[i], keywordRank, semanticRank);
      if e.Some? {
        scores := scores + [e.value];
      }
    }
    assert order[..|order|] == order;
    var sorted := SortDescending(scores);
    page := Slice(Floats(q.floated) + ShownAll(Take(sorted, q.topK + q.offset)), q.offset, q.offset + q.topK);
  }

  // ---------- ranks ----------

  lemma {:induction false} RankingIsPosition(ids: seq<Id>)
    requires Distinct(ids)
    ensures forall id :: id in Ranking(ids) <==> id in ids
    ensures forall i | 0 <= i < |ids| :: Ranking(ids)[ids[i]] == i + 1
  {
    if ids != [] {
      var head := ids[..|ids| - 1];
      RankingIsPosition(head);
      assert ids == head + [ids[|ids| - 1]];
      forall i | 0 <= i < |ids| ensures Ranking(ids)[ids[i]] == i + 1 {
        if i < |head| {
          assert head[i] == ids[i];
        }
      }
    }
  }

  // What the two searches guarantee: windows of at most twice the budget, distinct ids, no floated id.
  ghost predicate WellFormed(q: Query) {
    && NoRepeats(q.floated) && NoRepeats(q.keyword)
    && Distinct(SemanticIds(q))
    && |q.keyword| <= 2 * (q.topK + q.offset) && |q.semantic| <= 2 * (q.topK + q.offset)
    && (forall x | x in q.keyword :: x.id !in Ids(q.floated))
    && (forall id | id in SemanticIds(q) :: id !in Ids(q.floated))
    && (forall id | id in q.stored :: q.stored[id].id == id)
  }

  ghost predicate Enumerates(order: seq<Id>, q: Query) {
    Distinct(order) && forall id :: id in order <==> id in KeywordIds(q) || id in SemanticIds(q)
  }

  lemma KeywordIdsDistinct(q: Query)
    requires WellFormed(q)
    ensures Distinct(KeywordIds(q))
  {
  }

  // The entry of an id carries that id, its ranks within the windows, and a score made of them.
  lemma EntryFacts(q: Query, id: Id)
    requires WellFormed(q) && EntryOf(q, id).Some?
    ensures var e := EntryOf(q, id).value;
            && e.item.id == id
            && e.score == Score(e.keywordRank, e.semanticRank)
            && (e.keywordRank.Some? <==> id in KeywordIds(q)) && (e.semanticRank.Some? <==> id in SemanticIds(q))
            && (e.keywordRank.Some? ==> 1 <= e.keywordRank.value <= |q.keyword|)
            && (e.semanticRank.Some? ==> 1 <= e.semanticRank.value <= |q.semantic|)
            && (e.similarity.Some? <==> e.semanticRank.Some?)
            && Visible(q, e.item)
  {
    KeywordIdsDistinct(q);
    RankingIsPosition(KeywordIds(q));
    RankingIsPosition(SemanticIds(q));
    if id in KeywordIds(q) {
      var i :| 0 <= i < |KeywordIds(q)| && KeywordIds(q)[i] == id;
      assert Ranking(KeywordIds(q))[KeywordIds(q)[i]] == i + 1;
    }
    if id in SemanticIds(q) {
      var i :| 0 <= i < |SemanticIds(q)| && SemanticIds(q)[i] == id;
      assert Ranking(SemanticIds(q))[SemanticIds(q)[i]] == i + 1;
    }
  }

  // ---------- sorting ----------

  predicate ScoresFall(s: seq<Entry>) {
    StableSort.NonIncreasing(s, Points)
  }

  lemma SortSorts(entries: seq<Entry>)
    ensures ScoresFall(SortDescending(entries))
    ensures multiset(SortDescending(entries)) == multiset(entries)
  {
    StableSort.SortSorts(entries, Points);
  }

  lemma {:induction false} EntriesPrefix(q: Query, order: seq<Id>, m: nat)
    requires m <= |order|
    ensures Entries(q, order[..m]) <= Entries(q, order)
    decreases |order|
  {
    if m < |order| {
      var init := order[..|order| - 1];
      EntriesPrefix(q, init, m);
      assert init[..m] == order[..m];
    } else {
      assert order[..m] == order;
    }
  }

  lemma {:induction false} EntriesOnce(q: Query, order: seq<Id>)
    requires WellFormed(q) && Distinct(order)
    ensures forall i, j | 0 <= i < j < |Entries(q, order)| :: Entries(q, order)[i].item.id != Entries(q, order)[j].item.id
    ensures forall e | e in Entries(q, order) :: e.item.id in order && EntryOf(q, e.item.id) == Some(e)
    ensures forall id | id in order && EntryOf(q, id).Some? :: EntryOf(q, id).value in Entries(q, order)
  {
    if order != [] {
      var head, last := order[..|order| - 1], order[|order| - 1];
      assert order == head + [last];
      EntriesOnce(q, head);
      if EntryOf(q, last).Some? {
        EntryFacts(q, last);
        forall i | 0 <= i < |Entries(q, head)| ensures Entries(q, head)[i].item.id != last {
          assert Entries(q, head)[i] in Entries(q, head);
        }
      }
    }
  }

  lemma DistinctIdsSorted(a: seq<Entry>, b: seq<Entry>)
    requires multiset(a) == multiset(b)
    requires forall i, j | 0 <= i < j < |a| :: a[i].item.id != a[j].item.id
    ensures forall i, j | 0 <= i < j < |b| :: b[i].item.id != b[j].item.id
  {
    StableSort.DistinctStays(a, b);
    forall i, j | 0 <= i < j < |b| ensures b[i].item.id != b[j].item.id {
      assert b[i] in multiset(a) && b[j] in multiset(a);
      var k :| 0 <= k < |a| && a[k] == b[i];
      var l :| 0 <= l < |a| && a[l] == b[j];
      assert k != l;
    }
  }

  lemma SortedFacts(q: Query, order: seq<Id>)
    requires WellFormed(q) && Enumerates(order, q)
    ensures var sorted := SortDescending(Entries(q, order));
            && ScoresFall(sorted)
            && (forall i, j | 0 <= i < j < |sorted| :: sorted[i].item.id != sorted[j].item.id)
            && (forall i | 0 <= i < |sorted| :: IsEntry(q, order, sorted[i]))
  {
    var entries := Entries(q, order);
    var sorted := SortDescending(entries);
    SortSorts(entries);
    EntriesOnce(q, order);
    DistinctIdsSorted(entries, sorted);
    forall i | 0 <= i < |sorted| ensures IsEntry(q, order, sorted[i]) {
      assert sorted[i] in multiset(sorted);
      assert sorted[i] in entries;
    }
  }

  predicate IsEntry(q: Query, order: seq<Id>, e: Entry) {
    e.item.id in order && EntryOf(q, e.item.id) == Some(e)
  }

  lemma MergedFacts(q: Query, order: seq<Id>)
    requires WellFormed(q) && Enumerates(order, q)
    ensures var m := Merged(q, order);
            && ScoresFall(m)
            && (forall i, j | 0 <= i < j < |m| :: m[i].item.id != m[j].item.id)
            && (forall i | 0 <= i < |m| :: IsEntry(q, order, m[i]))
  {
    SortedFacts(q, order);
  }

  // ---------- the page ----------

  lemma SliceIndex<T>(s: seq<T>, from: nat, to: nat, i: nat)
    requires i < |Slice(s, from, to)|
    ensures from + i < |s| && Slice(s, from, to)[i] == s[from + i]
  {
  }

  // How any two results of a page relate, the first listed before the second.
  predicate Before(x: Scored, y: Scored) {
    && x.item.id != y.item.id
    && (y.channel == PinnedFloat ==> x.channel == PinnedFloat)
    && (x.channel != PinnedFloat && y.channel != PinnedFloat ==> x.rrf.Some? && y.rrf.Some? && x.rrf.value >= y.rrf.value)
  }

  predicate Allowed(q: Query, x: Scored) {
    x.channel != PinnedFloat ==> x.rrf.Some? && Visible(q, x.item)
  }

  lemma MergedAllowed(q: Query, order: seq<Id>, i: nat)
    requires WellFormed(q) && Enumerates(order, q) && i < |Merged(q, order)|
    ensures Allowed(q, Shown(Merged(q, order)[i])) && Merged(q, order)[i].item.id !in Ids(q.floated)
  {
    var e := Merged(q, order)[i];
    MergedFacts(q, order);
    EntryFacts(q, e.item.id);
    KeywordNotFloated(q, e.item.id);
  }

  lemma StreamOrdered(q: Query, order: seq<Id>, i: nat, j: nat)
    requires WellFormed(q) && Enumerates(order, q)
    requires i < j < |Floats(q.floated) + ShownAll(Merged(q, order))|
    ensures var s := Floats(q.floated) + ShownAll(Merged(q, order)); Before(s[i], s[j])
  {
    var m := Merged(q, order);
    var s := Floats(q.floated) + ShownAll(m);
    MergedFacts(q, order);
    if j < |q.floated| {
      assert s[i] == Float(q.floated[i]) && s[j] == Float(q.floated[j]);
    } else if i < |q.floated| {
      assert s[i] == Float(q.floated[i]) && s[j] == Shown(m[j - |q.floated|]);
      assert q.floated[i].id in Ids(q.floated);
      MergedAllowed(q, order, j - |q.floated|);
    } else {
      assert s[i] == Shown(m[i - |q.floated|]) && s[j] == Shown(m[j - |q.floated|]);
    }
  }

  /** A hybrid page: no memory twice, at most the budget, floated pins before everything ranked, the ranked
  part in non-increasing score order, and every ranked memory allowed by the query's filters. */
  lemma HybridPageIsOrdered(q: Query, order: seq<Id>)
    requires WellFormed(q) && Enumerates(order, q)
    ensures |HybridPage(q, order)| <= q.topK
    ensures forall i, j | 0 <= i < j < |HybridPage(q, order)| :: Before(HybridPage(q, order)[i], HybridPage(q, order)[j])
    ensures forall i | 0 <= i < |HybridPage(q, order)| :: Allowed(q, HybridPage(q, order)[i])
  {
    var s := Floats(q.floated) + ShownAll(Merged(q, order));
    var p := HybridPage(q, order);
    forall i, j | 0 <= i < j < |p| ensures Before(p[i], p[j]) {
      SliceIndex(s, q.offset, q.offset + q.topK, i);
      SliceIndex(s, q.offset, q.offset + q.topK, j);
      StreamOrdered(q, order, q.offset + i, q.offset + j);
    }
    forall i | 0 <= i < |p| ensures Allowed(q, p[i]) {
      SliceIndex(s, q.offset, q.offset + q.topK, i);
      if q.offset + i >= |q.floated| {
        MergedAllowed(q, order, q.offset + i - |q.floated|);
      }
    }
  }

  lemma KeywordNotFloated(q: Query, id: Id)
    requires WellFormed(q) && (id in KeywordIds(q) || id in SemanticIds(q))
    ensures id !in Ids(q.floated)
  {
    if id in KeywordIds(q) {
      var i :| 0 <= i < |KeywordIds(q)| && KeywordIds(q)[i] == id;
      assert q.keyword[i] in q.keyword;
    }
  }

  /** Every candidate the filters allow is on the page or cut by the budget, never lost to the fusion: the
  merged list holds all of them when they fit. */
  lemma NothingLostInFusion(q: Query, order: seq<Id>, id: Id)
    requires WellFormed(q) && Enumerates(order, q)
    requires id in order && EntryOf(q, id).Some?
    requires |Entries(q, order)| <= q.topK + q.offset
    ensures EntryOf(q, id).value in Merged(q, order)
  {
    EntriesOnce(q, order);
    SortSorts(Entries(q, order));
    var e := EntryOf(q, id).value;
    assert e in multiset(Entries(q, order));
    assert e in multiset(SortDescending(Entries(q, order)));
    assert |SortDescending(Entries(q, order))| == |multiset(SortDescending(Entries(q, order)))|;
    assert |Entries(q, order)| == |multiset(Entries(q, order))|;
  }

  // ---------- scores ----------

  lemma ReciprocalFalls(a: nat, b: nat)
    requires a <= b
    ensures Reciprocal(Some(a)) >= Reciprocal(Some(b)) > 0.0
    ensures a < b ==> Reciprocal(Some(a)) > Reciprocal(Some(b))
  {
    var x, y := (RRF_K + a) as real, (RRF_K + b) as real;
    assert 1.0 / x - 1.0 / y == (y - x) / (x * y);
  }

  predicate NoWorse(a: Option<nat>, b: Option<nat>) {
    b.Some? ==> a.Some? && a.value <= b.value
  }

  /** A memory ranked no worse in both channels never scores lower, and scores higher when it is ranked
  better in one of them. */
  lemma BetterRanksScoreHigher(k: Option<nat>, s: Option<nat>, k': Option<nat>, s': Option<nat>)
    requires NoWorse(k, k') && NoWorse(s, s')
    ensures Score(k, s) >= Score(k', s')
    ensures (k, s) != (k', s') ==> Score(k, s) > Score(k', s')
  {
    ChannelNoWorse(k, k');
    ChannelNoWorse(s, s');
  }

  lemma ChannelNoWorse(a: Option<nat>, b: Option<nat>)
    requires NoWorse(a, b)
    ensures Reciprocal(a) >= Reciprocal(b) && (a != b ==> Reciprocal(a) > Reciprocal(b))
  {
    if a.Some? {
      ReciprocalFalls(a.value, if b.Some? then b.value else a.value);
    }
  }

  ghost predicate BothBeatOne(window: nat) {
    forall k, s, one | 1 <= k <= window && 1 <= s <= window && 1 <= one <= window ::
      Score(Some(k), Some(s)) > Score(Some(one), None) && Score(Some(k), Some(s)) > Score(None, Some(one))
  }

  /** Being found by both channels beats any single-channel rank exactly when the budget `top_k + offset`
  is at most 30: the windows then reach no further than rank 60. */
  lemma BothChannelsWinUpToThirty(budget: nat)
    ensures BothBeatOne(2 * budget) <==> budget <= 30
  {
    if budget <= 30 {
      forall k, s, one | 1 <= k <= 2 * budget && 1 <= s <= 2 * budget && 1 <= one <= 2 * budget
        ensures Score(Some(k), Some(s)) > Score(Some(one), None) && Score(Some(k), Some(s)) > Score(None, Some(one))
      {
        ReciprocalFalls(k, 60);
        ReciprocalFalls(s, 60);
        ReciprocalFalls(1, one);
        AtSixty();
      }
    } else {
      AtSixtyTwo();
      assert !(Score(Some(62), Some(62)) > Score(Some(1), None));
    }
  }

  lemma AtSixty()
    ensures Reciprocal(Some(60)) + Reciprocal(Some(60)) > Reciprocal(Some(1))
  {
    assert Reciprocal(Some(60)) == 1.0 / 120.0 && Reciprocal(Some(1)) == 1.0 / 61.0;
  }

  lemma AtSixtyTwo()
    ensures Reciprocal(Some(62)) + Reciprocal(Some(62)) == Reciprocal(Some(1))
  {
    assert Reciprocal(Some(62)) == 1.0 / 122.0 && Reciprocal(Some(1)) == 1.0 / 61.0;
  }

  // Scored by its ranks, each within the window
  predicate RankedWithin(e: Entry, window: nat) {
    && e.score == Score(e.keywordRank, e.semanticRank)
    && (e.keywordRank.Some? ==> 1 <= e.keywordRank.value <= window)
    && (e.semanticRank.Some? ==> 1 <= e.semanticRank.value <= window)
  }

  lemma SingleScoresLess(window: nat, x: Entry, y: Entry)
    requires BothBeatOne(window) && RankedWithin(x, window) && RankedWithin(y, window)
    requires x.keywordRank.Some? != x.semanticRank.Some? && y.keywordRank.Some? && y.semanticRank.Some?
    ensures x.score < y.score
  {
    if x.keywordRank.Some? {
      assert Score(Some(y.keywordRank.value), Some(y.semanticRank.value)) > Score(Some(x.keywordRank.value), None);
    } else {
      assert Score(Some(y.keywordRank.value), Some(y.semanticRank.value)) > Score(None, Some(x.semanticRank.value));
    }
  }

  lemma EntryIsRanked(q: Query, id: Id)
    requires WellFormed(q) && (id in KeywordIds(q) || id in SemanticIds(q)) && EntryOf(q, id).Some?
    ensures RankedWithin(EntryOf(q, id).value, 2 * (q.topK + q.offset))
    ensures var e := EntryOf(q, id).value;
            && (e.keywordRank.Some? || e.semanticRank.Some?)
            && (ChannelOf(e) == Hybrid <==> e.keywordRank.Some? && e.semanticRank.Some?)
  {
    EntryFacts(q, id);
  }

  lemma HybridScoresMore(q: Query, a: Id, b: Id)
    requires WellFormed(q) && q.topK + q.offset <= 30
    requires a in KeywordIds(q) || a in SemanticIds(q)
    requires b in KeywordIds(q) || b in SemanticIds(q)
    requires EntryOf(q, a).Some? && EntryOf(q, b).Some?
    requires ChannelOf(EntryOf(q, a).value) != Hybrid && ChannelOf(EntryOf(q, b).value) == Hybrid
    ensures EntryOf(q, a).value.score < EntryOf(q, b).value.score
  {
    EntryIsRanked(q, a);
    EntryIsRanked(q, b);
    BudgetBeatsOne(q.topK + q.offset, EntryOf(q, a).value, EntryOf(q, b).value);
  }

  lemma BudgetBeatsOne(budget: nat, x: Entry, y: Entry)
    requires budget <= 30 && RankedWithin(x, 2 * budget) && RankedWithin(y, 2 * budget)
    requires x.keywordRank.Some? != x.semanticRank.Some? && y.keywordRank.Some? && y.semanticRank.Some?
    ensures x.score < y.score
  {
    BothChannelsWinUpToThirty(budget);
    SingleScoresLess(2 * budget, x, y);
  }

  // Within that budget, entries found by both channels come before those found by one.
  lemma MergedHitsLead(q: Query, order: seq<Id>, i: nat, j: nat)
    requires WellFormed(q) && Enumerates(order, q) && q.topK + q.offset <= 30
    requires i < j < |Merged(q, order)| && ChannelOf(Merged(q, order)[j]) == Hybrid
    ensures ChannelOf(Merged(q, order)[i]) == Hybrid
  {
    var a, b := Merged(q, order)[i], Merged(q, order)[j];
    MergedFacts(q, order);
    if ChannelOf(a) != Hybrid {
      HybridScoresMore(q, a.item.id, b.item.id);
      assert false;
    }
  }
}
